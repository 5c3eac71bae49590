/** The section-name normaliser of the product specialist script
    (src/scripts/test_product_specialist.py): a user-friendly section name becomes the
    internal one, first by exact lookup of its lower-case form, then by the first table
    entry whose first word starts it, and is otherwise returned unchanged. */
module SectionNames {
  import opened Wrappers
  import opened Text
  import opened Dicts

  /** `section_map`, in its order. */
  const SectionMap: Dict<string> := [
    ("electrical specifications", "electrical"),
    ("magnetic specifications", "magnetic"),
    ("physical specifications", "physical"),
    ("features and advantages", "Features_And_Advantages"),
    ("features", "Features_And_Advantages"),
    ("advantages", "Features_And_Advantages"),
    ("diagram", "diagram")]

  /** A name the table maps some user-friendly name to. */
  predicate Internal(name: string)
  {
    exists i :: 0 <= i < |SectionMap| && SectionMap[i].1 == name
  }

  /** The first word of each user-friendly name, in table order. */
  const FirstWords: seq<string> := ["electrical", "magnetic", "physical", "features", "features", "advantages", "diagram"]

  /** Every user-friendly name has a first word (`user_name.split()[0]` never fails). */
  predicate Worded(table: Dict<string>)
  {
    forall i :: 0 <= i < |table| ==> Words(table[i].0) != []
  }

  /** The first word of each user-friendly name. */
  lemma ElectricalWord()
    ensures Words(SectionMap[0].0) != [] && Words(SectionMap[0].0)[0] == FirstWords[0]
  {
    assert SectionMap[0].0 == "electrical" + " specifications";
    WordsHead("electrical", " specifications");
  }

  lemma MagneticWord()
    ensures Words(SectionMap[1].0) != [] && Words(SectionMap[1].0)[0] == FirstWords[1]
  {
    assert SectionMap[1].0 == "magnetic" + " specifications";
    WordsHead("magnetic", " specifications");
  }

  lemma PhysicalWord()
    ensures Words(SectionMap[2].0) != [] && Words(SectionMap[2].0)[0] == FirstWords[2]
  {
    assert SectionMap[2].0 == "physical" + " specifications";
    WordsHead("physical", " specifications");
  }

  lemma FeaturesAndAdvantagesWord()
    ensures Words(SectionMap[3].0) != [] && Words(SectionMap[3].0)[0] == FirstWords[3]
  {
    assert SectionMap[3].0 == "features" + " and advantages";
    WordsHead("features", " and advantages");
  }

  lemma FeaturesWord()
    ensures Words(SectionMap[4].0) != [] && Words(SectionMap[4].0)[0] == FirstWords[4]
  {
    assert SectionMap[4].0 == "features" + "";
    WordsHead("features", "");
  }

  lemma AdvantagesWord()
    ensures Words(SectionMap[5].0) != [] && Words(SectionMap[5].0)[0] == FirstWords[5]
  {
    assert SectionMap[5].0 == "advantages" + "";
    WordsHead("advantages", "");
  }

  lemma DiagramWord()
    ensures Words(SectionMap[6].0) != [] && Words(SectionMap[6].0)[0] == FirstWords[6]
  {
    assert SectionMap[6].0 == "diagram" + "";
    WordsHead("diagram", "");
  }

  /** The table's first words are the ones listed in `FirstWords`. */
  lemma TableWords()
    ensures Worded(SectionMap)
    ensures forall i :: 0 <= i < |SectionMap| ==> Words(SectionMap[i].0)[0] == FirstWords[i]
  {
    forall i | 0 <= i < |SectionMap|
      ensures Words(SectionMap[i].0) != [] && Words(SectionMap[i].0)[0] == FirstWords[i]
    {
      if i == 0 {
        ElectricalWord();
      } else if i == 1 {
        MagneticWord();
      } else if i == 2 {
        PhysicalWord();
      } else if i == 3 {
        FeaturesAndAdvantagesWord();
      } else if i == 4 {
        FeaturesWord();
      } else if i == 5 {
        AdvantagesWord();
      } else {
        DiagramWord();
      }
    }
  }

  /** The internal name of the first entry, from position `k` on, whose user-friendly
      name's first word starts `lowered`. */
  function PrefixMatch(lowered: string, table: Dict<string>, k: nat): (r: Option<string>)
    requires Worded(table) && k <= |table|
    ensures r.Some? ==> exists i :: k <= i < |table| && table[i].1 == r.value && StartsWith(lowered, Words(table[i].0)[0])
    decreases |table| - k
  {
    if k == |table| then None
    else if StartsWith(lowered, Words(table[k].0)[0]) then Some(table[k].1)
    else PrefixMatch(lowered, table, k + 1)
  }

  /** The result of the two lookups on the lower-case form, if either finds a name (an
      exact hit counts only when the name it gives is not empty). */
  function Lookup(lowered: string): (r: Option<string>)
    ensures r.Some? ==> Internal(r.value)
  {
    TableWords();
    match Get(SectionMap, lowered)
    case Some(name) => if name != "" then Some(name) else PrefixMatch(lowered, SectionMap, 0)
    case None => PrefixMatch(lowered, SectionMap, 0)
  }

  /** `normalize_section_name`: the table's entry for the lower-case form when there is one,
      else the first entry whose first word starts the lower-case form, else the name
      unchanged. */
  function Normalize(section: string): (r: string)
    ensures r == section || Internal(r)
  {
    match Lookup(Lower(section))
    case Some(name) => name
    case None => section
  }

  /** `normalize_section_name`, scanning the table with a loop as the source does. */
  method NormalizeSectionName(section: string) returns (r: string)
    ensures r == Normalize(section)
  {
    var lowered := Lower(section);
    var normalized := Get(SectionMap, lowered);
    LookupCases(lowered);
    if normalized.Some? && normalized.value != "" {
      return normalized.value;
    }
    var prefixed := FirstPrefixed(lowered, SectionMap);
    if prefixed.Some? {
      return prefixed.value;
    }
    return section;
  }

  /** The two lookups in turn: the exact hit when it gives a name, else the prefix match. */
  lemma LookupCases(lowered: string)
    ensures Worded(SectionMap)
    ensures var exact := Get(SectionMap, lowered);
            Lookup(lowered) == if exact.Some? && exact.value != "" then exact else PrefixMatch(lowered, SectionMap, 0)
  {
    TableWords();
  }

  /** The prefix loop of `normalize_section_name`: the internal name of the first entry
      whose user-friendly name's first word starts `lowered`. */
  method FirstPrefixed(lowered: string, table: Dict<string>) returns (r: Option<string>)
    requires Worded(table)
    ensures r == PrefixMatch(lowered, table, 0)
  {
    for k := 0 to |table|
      invariant PrefixMatch(lowered, table, k) == PrefixMatch(lowered, table, 0)
    {
      if StartsWith(lowered, Words(table[k].0)[0]) {
        return Some(table[k].1);
      }
    }
    return None;
  }

  /** Names that agree ignoring case normalise alike, unless neither is found, in which
      case each comes back as it was. */
  lemma IgnoresCase(s: string, t: string)
    requires Lower(s) == Lower(t)
    ensures Normalize(s) == Normalize(t) || (Normalize(s) == s && Normalize(t) == t)
  {
  }

  /** An exact hit on the lower-case form wins. */
  lemma ExactName(section: string, name: string)
    requires Get(SectionMap, Lower(section)) == Some(name) && name != ""
    ensures Normalize(section) == name
  {
  }

  /** Without an exact hit, the first entry whose first word starts the lower-case form
      wins. */
  lemma PrefixName(section: string, lowered: string, i: nat)
    requires Lower(section) == lowered
    requires i < |SectionMap| && Get(SectionMap, lowered) == None
    requires forall j :: 0 <= j < i ==> !StartsWith(lowered, FirstWords[j])
    requires StartsWith(lowered, FirstWords[i])
    ensures Normalize(section) == SectionMap[i].1
  {
    TableWords();
    PrefixMatchSkips(lowered, SectionMap, i);
  }

  /** With no exact hit and no entry whose first word starts the lower-case form, the
      name comes back unchanged. */
  lemma NoMatchUnchanged(section: string)
    requires Get(SectionMap, Lower(section)) == None
    requires forall j :: 0 <= j < |SectionMap| ==> !StartsWith(Lower(section), FirstWords[j])
    ensures Normalize(section) == section
  {
    TableWords();
    PrefixMatchSkips(Lower(section), SectionMap, |SectionMap|);
  }

  /** The entries of `FirstWords`. */
  lemma FirstWordsAre()
    ensures FirstWords[0] == "electrical" && FirstWords[1] == "magnetic" && FirstWords[2] == "physical"
    ensures FirstWords[3] == "features"
  {
  }

  /** A string starts with itself. */
  lemma StartsWithSelf(s: string)
    ensures StartsWith(s, s)
  {
  }

  /** Entries whose first word does not start `lowered` are passed over. */
  lemma {:induction false} PrefixMatchSkips(lowered: string, table: Dict<string>, i: nat)
    requires Worded(table) && i <= |table|
    requires forall j :: 0 <= j < i ==> !StartsWith(lowered, Words(table[j].0)[0])
    ensures PrefixMatch(lowered, table, 0) == PrefixMatch(lowered, table, i)
    decreases i
  {
    if i > 0 {
      PrefixMatchSkips(lowered, table, i - 1);
      assert !StartsWith(lowered, Words(table[i - 1].0)[0]);
      assert PrefixMatch(lowered, table, i - 1) == PrefixMatch(lowered, table, i);
    }
  }

  /** "features", "advantages" and "features and advantages" all name the same section. */
  lemma FeatureAliases()
    ensures Normalize("features") == "Features_And_Advantages"
    ensures Normalize("advantages") == "Features_And_Advantages"
    ensures Normalize("features and advantages") == "Features_And_Advantages"
  {
    FeaturesLower();
    FeaturesKey();
    ExactName("features", "Features_And_Advantages");
    AdvantagesLower();
    AdvantagesKey();
    ExactName("advantages", "Features_And_Advantages");
    FeaturesAndAdvantagesLower();
    FeaturesAndAdvantagesKey();
    ExactName("features and advantages", "Features_And_Advantages");
  }

  lemma FeaturesLower()
    ensures Lower("features") == "features"
  {
    LowerNoUpper("features");
  }

  lemma FeaturesKey()
    ensures Get(SectionMap, "features") == Some("Features_And_Advantages")
  {
    GetAt(SectionMap, "features", 4);
  }

  lemma AdvantagesLower()
    ensures Lower("advantages") == "advantages"
  {
    LowerNoUpper("advantages");
  }

  lemma AdvantagesKey()
    ensures Get(SectionMap, "advantages") == Some("Features_And_Advantages")
  {
    GetAt(SectionMap, "advantages", 5);
  }

  lemma FeaturesAndAdvantagesLower()
    ensures Lower("features and advantages") == "features and advantages"
  {
    LowerNoUpper("features and advantages");
  }

  lemma FeaturesAndAdvantagesKey()
    ensures Get(SectionMap, "features and advantages") == Some("Features_And_Advantages")
  {
    GetAt(SectionMap, "features and advantages", 3);
  }

  /** Normalising twice is normalising once: every internal name normalises to itself. */
  lemma Idempotent(section: string)
    ensures Normalize(Normalize(section)) == Normalize(section)
  {
    var r := Normalize(section);
    if r != section {
      InternalNames(r);
      if r == "electrical" {
        ElectricalFixed();
      } else if r == "magnetic" {
        MagneticFixed();
      } else if r == "physical" {
        PhysicalFixed();
      } else if r == "Features_And_Advantages" {
        FeaturesAndAdvantagesFixed();
      } else {
        DiagramFixed();
      }
    }
  }

  /** The five internal names. */
  lemma InternalNames(name: string)
    requires Internal(name)
    ensures name == "electrical" || name == "magnetic" || name == "physical" || name == "Features_And_Advantages" || name == "diagram"
  {
    var i :| 0 <= i < |SectionMap| && SectionMap[i].1 == name;
    assert SectionMap[i] in SectionMap;
  }

  /** Two strings that differ at some position differ. */
  lemma DifferAt(s: string, t: string, i: nat)
    requires i < |s| && i < |t| && s[i] != t[i]
    ensures s != t
  {
  }

  lemma ElectricalFixed()
    ensures Normalize("electrical") == "electrical"
  {
    ElectricalLower();
    ElectricalMissing();
    FirstWordsAre();
    StartsWithSelf("electrical");
    PrefixName("electrical", "electrical", 0);
  }

  lemma ElectricalLower()
    ensures Lower("electrical") == "electrical"
  {
    LowerNoUpper("electrical");
  }

  lemma ElectricalMissing()
    ensures Get(SectionMap, "electrical") == None
  {
    forall j | 0 <= j < |SectionMap|
      ensures SectionMap[j].0 != "electrical"
    {
      if j == 5 {
        DifferAt(SectionMap[5].0, "electrical", 0);
      }
    }
    GetMissing(SectionMap, "electrical");
  }

  lemma MagneticFixed()
    ensures Normalize("magnetic") == "magnetic"
  {
    MagneticLower();
    MagneticMissing();
    MagneticFirstWord();
    PrefixName("magnetic", "magnetic", 1);
  }

  /** "magnetic" is the second first word and does not start with the first. */
  lemma MagneticFirstWord()
    ensures forall j :: 0 <= j < 1 ==> !StartsWith("magnetic", FirstWords[j])
    ensures StartsWith("magnetic", FirstWords[1])
  {
    FirstWordsAre();
    StartsWithSelf("magnetic");
    DifferAt("magnetic", "electrical", 0);
  }

  lemma MagneticLower()
    ensures Lower("magnetic") == "magnetic"
  {
    LowerNoUpper("magnetic");
  }

  lemma MagneticMissing()
    ensures Get(SectionMap, "magnetic") == None
  {
    forall j | 0 <= j < |SectionMap|
      ensures SectionMap[j].0 != "magnetic"
    {
      if j == 4 {
        DifferAt(SectionMap[4].0, "magnetic", 0);
      }
    }
    GetMissing(SectionMap, "magnetic");
  }

  lemma PhysicalFixed()
    ensures Normalize("physical") == "physical"
  {
    PhysicalLower();
    PhysicalMissing();
    PhysicalFirstWord();
    PrefixName("physical", "physical", 2);
  }

  /** "physical" is the third first word and starts with neither earlier one. */
  lemma PhysicalFirstWord()
    ensures forall j :: 0 <= j < 2 ==> !StartsWith("physical", FirstWords[j])
    ensures StartsWith("physical", FirstWords[2])
  {
    FirstWordsAre();
    StartsWithSelf("physical");
    forall j | 0 <= j < 2
      ensures !StartsWith("physical", FirstWords[j])
    {
      if j == 1 {
        DifferAt("physical", "magnetic", 0);
      }
    }
  }

  lemma PhysicalLower()
    ensures Lower("physical") == "physical"
  {
    LowerNoUpper("physical");
  }

  lemma PhysicalMissing()
    ensures Get(SectionMap, "physical") == None
  {
    forall j | 0 <= j < |SectionMap|
      ensures SectionMap[j].0 != "physical"
    {
      if j == 4 {
        DifferAt(SectionMap[4].0, "physical", 0);
      }
    }
    GetMissing(SectionMap, "physical");
  }

  lemma FeaturesAndAdvantagesFixed()
    ensures Normalize("Features_And_Advantages") == "Features_And_Advantages"
  {
    var name := "Features_And_Advantages";
    assert |name| == 23 && name[..9] == "Features_";
    FeaturesUnderscoreFixed(name);
  }

  /** A 23-character name beginning "Features_" is not a table key and falls to the
      "features and advantages" entry by its first word. */
  lemma FeaturesUnderscoreFixed(name: string)
    requires |name| == 23 && name[..9] == "Features_"
    ensures Normalize(name) == "Features_And_Advantages"
  {
    var lowered := Lower(name);
    InternalFeaturesLower(name);
    InternalFeaturesMissing(lowered);
    InternalFeaturesPrefix(lowered);
    PrefixName(name, lowered, 3);
  }

  /** A name beginning "Features_" lower-cases to one beginning "features_". */
  lemma InternalFeaturesLower(name: string)
    requires |name| == 23 && name[..9] == "Features_"
    ensures var lowered := Lower(name);
            |lowered| == 23 && lowered[..8] == "features" && lowered[0] == 'f' && lowered[8] == '_'
  {
    var lowered := Lower(name);
    assert name[0] == 'F' && name[1] == 'e' && name[2] == 'a' && name[3] == 't' && name[4] == 'u';
    assert name[5] == 'r' && name[6] == 'e' && name[7] == 's' && name[8] == '_';
    assert lowered[..8] == "features";
  }

  lemma InternalFeaturesMissing(lowered: string)
    requires |lowered| == 23 && lowered[0] == 'f' && lowered[8] == '_'
    ensures Get(SectionMap, lowered) == None
  {
    forall j | 0 <= j < |SectionMap|
      ensures SectionMap[j].0 != lowered
    {
      var key := SectionMap[j].0;
      if j == 1 || j == 2 {
        assert key[0] != 'f';
        DifferAt(key, lowered, 0);
      } else if j == 3 {
        assert key[8] == ' ';
        DifferAt(key, lowered, 8);
      } else {
        assert |key| != 23;
      }
    }
    GetMissing(SectionMap, lowered);
  }

  lemma InternalFeaturesPrefix(lowered: string)
    requires |lowered| == 23 && lowered[..8] == "features"
    ensures forall j :: 0 <= j < 3 ==> !StartsWith(lowered, FirstWords[j])
    ensures StartsWith(lowered, FirstWords[3])
  {
    assert lowered[0] == 'f';
  }

  lemma DiagramFixed()
    ensures Normalize("diagram") == "diagram"
  {
    DiagramLower();
    DiagramKey();
    ExactName("diagram", "diagram");
  }

  lemma DiagramLower()
    ensures Lower("diagram") == "diagram"
  {
    LowerNoUpper("diagram");
  }

  lemma DiagramKey()
    ensures Get(SectionMap, "diagram") == Some("diagram")
  {
    GetAt(SectionMap, "diagram", 6);
  }
}
