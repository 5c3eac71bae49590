/** Unit standardisation (src/ai_support_agent/tools/transformers.py): a fixed table of
    unit spellings, `standardize_unit`, which rewrites a raw unit such as "Ohms - maximum"
    to its standard symbol with an abbreviated suffix, and `format_display_value`. */
module Transformers {
  import opened Wrappers
  import opened Text
  import opened Dicts

  datatype UnitType =
    | Temperature | Resistance | Voltage | Current | Power | Time | Frequency
    | Capacitance | Inductance | Volume | Magnetic

  /** A standard unit. Every entry of the table also carries the default suffix map
      maximum/minimum/typical/nominal to max/min/typ/nom; `StandardizeUnit` does not read
      it, so it is not represented. */
  datatype UnitStandard = UnitStandard(symbol: string, display: string, kind: UnitType)

  const Celsius := UnitStandard("°C", "°C", Temperature)
  const Fahrenheit := UnitStandard("°F", "°F", Temperature)
  const Ohm := UnitStandard("Ω", "Ω", Resistance)
  const Volt := UnitStandard("V", "V", Voltage)
  const VoltDC := UnitStandard("VDC", "VDC", Voltage)
  const VoltAC := UnitStandard("VAC", "VAC", Voltage)
  const Ampere := UnitStandard("A", "A", Current)
  const MilliAmpere := UnitStandard("mA", "mA", Current)
  const Watt := UnitStandard("W", "W", Power)
  const Millisecond := UnitStandard("ms", "ms", Time)
  const CubicCentimeter := UnitStandard("cc", "cc", Volume)
  const Picofarad := UnitStandard("pF", "pF", Capacitance)
  const Millihenry := UnitStandard("mH", "mH", Inductance)
  const AmpereTurn := UnitStandard("AT", "AT", Magnetic)

  const UnitTable: Dict<UnitStandard> := [
    ("°C", Celsius),
    ("°F", Fahrenheit),
    ("ohm", Ohm),
    ("ohms", Ohm),
    ("Ohm", Ohm),
    ("Ohms", Ohm),
    ("V", Volt),
    ("VDC", VoltDC),
    ("VAC", VoltAC),
    ("Volts", Volt),
    ("A", Ampere),
    ("Amp", Ampere),
    ("Amps", Ampere),
    ("mA", MilliAmpere),
    ("W", Watt),
    ("Watt", Watt),
    ("Watts", Watt),
    ("ms", Millisecond),
    ("msec", Millisecond),
    ("msecs", Millisecond),
    ("mSeconds", Millisecond),
    ("millisecond", Millisecond),
    ("milliseconds", Millisecond),
    ("Milliseconds", Millisecond),
    ("MILLISECONDS", Millisecond),
    ("CC", CubicCentimeter),
    ("cc", CubicCentimeter),
    ("cubic centimeter", CubicCentimeter),
    ("cubic centimeters", CubicCentimeter),
    ("CUBIC CENTIMETERS", CubicCentimeter),
    ("Cubic Centimeters", CubicCentimeter),
    ("Cubic centimeters", CubicCentimeter),
    ("pF", Picofarad),
    ("picofarad", Picofarad),
    ("picofarads", Picofarad),
    ("mH", Millihenry),
    ("millihenry", Millihenry),
    ("millihenries", Millihenry),
    ("AT", AmpereTurn),
    ("Ampere Turn", AmpereTurn),
    ("Ampere Turns", AmpereTurn),
    ("ampere turn", AmpereTurn),
    ("ampere turns", AmpereTurn),
    ("AMPERE TURNS", AmpereTurn)
  ]

  /** The display symbols the table maps to. */
  const Standards: set<UnitStandard> :=
    {Celsius, Fahrenheit, Ohm, Volt, VoltDC, VoltAC, Ampere, MilliAmpere, Watt, Millisecond,
     CubicCentimeter, Picofarad, Millihenry, AmpereTurn}

  /** The first unit listed under `spelling` (Python's `dict.get`; the table lists every
      spelling once). */
  function Lookup(table: seq<(string, UnitStandard)>, spelling: string): Option<UnitStandard>
  {
    if table == [] then None
    else if table[0].0 == spelling then Some(table[0].1)
    else Lookup(table[1..], spelling)
  }

  /** `UnitTransformer.STANDARD_UNITS.get(spelling)` */
  function StandardUnit(spelling: string): Option<UnitStandard>
  {
    Lookup(UnitTable, spelling)
  }

  /** Entry `i` is the first one listing `spelling`, so it is the one found. */
  lemma {:induction false} LookupAt(table: seq<(string, UnitStandard)>, spelling: string, i: nat)
    requires i < |table| && table[i].0 == spelling
    requires forall j :: 0 <= j < i ==> table[j].0 != spelling
    ensures Lookup(table, spelling) == Some(table[i].1)
    decreases i
  {
    if i > 0 {
      LookupAt(table[1..], spelling, i - 1);
    }
  }

  /** A spelling no entry lists is not found. */
  lemma {:induction false} LookupMissing(table: seq<(string, UnitStandard)>, spelling: string)
    requires forall j :: 0 <= j < |table| ==> table[j].0 != spelling
    ensures Lookup(table, spelling) == None
  {
    if table != [] {
      LookupMissing(table[1..], spelling);
    }
  }

  /** What the table finds is one of its units. */
  lemma {:induction false} LookupIn(table: seq<(string, UnitStandard)>, spelling: string)
    ensures Lookup(table, spelling).Some? ==> exists j :: 0 <= j < |table| && table[j].1 == Lookup(table, spelling).value
  {
    if table != [] && table[0].0 != spelling {
      LookupIn(table[1..], spelling);
      if Lookup(table, spelling).Some? {
        var j :| 0 <= j < |table[1..]| && table[1..][j].1 == Lookup(table, spelling).value;
        assert table[j + 1].1 == Lookup(table, spelling).value;
      }
    }
  }

  /** Every unit the table lists is one of the standard units. */
  lemma StandardUnitIn(spelling: string)
    ensures StandardUnit(spelling).Some? ==> StandardUnit(spelling).value in Standards
  {
    LookupIn(UnitTable, spelling);
    TableStandards();
  }

  /** The suffixes that are always abbreviated to their first three letters. */
  const StandardSuffixes: seq<string> := ["maximum", "minimum", "nominal", "typical"]

  /** The spellings tried for a base unit, in order. */
  function Variants(base: string): seq<string>
  {
    [base, Lower(base), Upper(base), Capitalize(base), Title(base)]
  }

  /** The table entry of the first spelling in `spellings` that the table knows. */
  function FirstHit(spellings: seq<string>): (r: Option<UnitStandard>)
    ensures r.Some? ==> exists i :: 0 <= i < |spellings| && StandardUnit(spellings[i]) == r
    ensures r.None? <==> forall i :: 0 <= i < |spellings| ==> StandardUnit(spellings[i]).None?
    ensures r.Some? ==> r.value in Standards
  {
    if spellings == [] then None
    else if StandardUnit(spellings[0]).Some? then StandardUnitIn(spellings[0]); StandardUnit(spellings[0])
    else FirstHit(spellings[1..])
  }

  /** The base unit: what precedes the first '-', stripped. */
  function BaseUnit(unit: string): string
  {
    Strip(SplitOnce(unit, '-')[0])
  }

  /** The suffix: what follows the first '-', stripped; `None` when there is no '-'. */
  function Suffix(unit: string): Option<string>
  {
    var parts := SplitOnce(unit, '-');
    if |parts| > 1 then Some(Strip(parts[1])) else None
  }

  /** The suffix as it is written out: one of the standard suffixes, in any letter case,
      becomes the first three letters of its lower-case form; any other suffix is kept as
      written. */
  function SuffixText(suffix: string): string
  {
    var l := Lower(suffix);
    if Listed(StandardSuffixes, l) then StandardSuffixShape(l); l[..3] else suffix
  }

  /** The standard display symbol, followed by " - " and the suffix text when there is a
      non-empty suffix. */
  function WithSuffix(display: string, suffix: Option<string>): string
  {
    if suffix.None? || suffix.value == "" then display
    else display + " - " + SuffixText(suffix.value)
  }

  /** What `standardize_unit` returns, stated declaratively. */
  function Standardized(unit: Option<string>): Option<string>
  {
    if unit.None? || unit.value == "" then None
    else match FirstHit(Variants(BaseUnit(unit.value)))
      case None => unit
      case Some(standard) => Some(WithSuffix(standard.display, Suffix(unit.value)))
  }

  /** `UnitTransformer.standardize_unit`: the case variants are tried in a loop that stops
      at the first spelling the table knows. */
  /** The loop over the variations: the standard of the first one that has one. */
  method FirstStandard(variations: seq<string>) returns (standard: Option<UnitStandard>)
    ensures standard == FirstHit(variations)
  {
    standard := None;
    var i := 0;
    while i < |variations|
      invariant 0 <= i <= |variations|
      invariant standard.None? && FirstHit(variations) == FirstHit(variations[i..])
    {
      assert variations[i..][0] == variations[i] && variations[i..][1..] == variations[i + 1..];
      standard := StandardUnit(variations[i]);
      if standard.Some? {
        return;
      }
      i := i + 1;
    }
    assert variations[i..] == [];
  }

  method StandardizeUnit(unit: Option<string>) returns (r: Option<string>)
    ensures r == Standardized(unit)
  {
    if unit.None? || unit.value == "" {
      return None;
    }
    var u := unit.value;
    var parts := SplitOnce(u, '-');
    var base := Strip(parts[0]);
    var suffix: Option<string> := if |parts| > 1 then Some(Strip(parts[1])) else None;
    var variations := Variants(base);
    var standard := FirstStandard(variations);
    if standard.None? {
      return unit;
    }
    return Some(WithSuffix(standard.value.display, suffix));
  }

  /** `UnitTransformer.format_display_value`: the value alone when the unit is missing or
      empty, otherwise the value, one space and the unit. The source tests whether the value
      contains "to" (a range such as "-40 to +125") and formats both cases alike. */
  function FormatDisplayValue(value: string, unit: Option<string>): (r: string)
    ensures unit.None? || unit.value == "" ==> r == value
    ensures unit.Some? && unit.value != "" ==> r == value + " " + unit.value
  {
    if unit.None? || unit.value == "" then value
    else if Contains(value, "to") then value + " " + unit.value
    else value + " " + unit.value
  }
  /** A spelling the table knows is the first variant the loop tries, so it is the hit. */
  lemma FirstVariantHit(d: string)
    requires StandardUnit(d).Some?
    ensures FirstHit(Variants(d)) == StandardUnit(d)
  {
    assert Variants(d)[0] == d;
  }

  /** The display symbol of each standard other than "Ω" is itself a spelling the table
      lists, for that standard (a few standards per lemma, in table order). */
  lemma DisplayListed1(st: UnitStandard)
    requires st == Celsius || st == Fahrenheit || st == Volt
    ensures StandardUnit(st.display) == Some(st)
  {
    if st == Celsius {
      LookupAt(UnitTable, Celsius.display, 0);
    } else if st == Fahrenheit {
      LookupAt(UnitTable, Fahrenheit.display, 1);
    } else {
      LookupAt(UnitTable, Volt.display, 6);
    }
  }

  lemma DisplayListed2(st: UnitStandard)
    requires st == VoltDC || st == VoltAC || st == Ampere
    ensures StandardUnit(st.display) == Some(st)
  {
    if st == VoltDC {
      LookupAt(UnitTable, VoltDC.display, 7);
    } else if st == VoltAC {
      LookupAt(UnitTable, VoltAC.display, 8);
    } else {
      LookupAt(UnitTable, Ampere.display, 10);
    }
  }

  lemma DisplayListed3(st: UnitStandard)
    requires st == MilliAmpere || st == Watt || st == Millisecond
    ensures StandardUnit(st.display) == Some(st)
  {
    if st == MilliAmpere {
      LookupAt(UnitTable, MilliAmpere.display, 13);
    } else if st == Watt {
      LookupAt(UnitTable, Watt.display, 14);
    } else {
      LookupAt(UnitTable, Millisecond.display, 17);
    }
  }

  lemma DisplayListed4(st: UnitStandard)
    requires st == CubicCentimeter || st == Picofarad
    ensures StandardUnit(st.display) == Some(st)
  {
    if st == CubicCentimeter {
      LookupAt(UnitTable, CubicCentimeter.display, 26);
    } else {
      LookupAt(UnitTable, Picofarad.display, 32);
    }
  }

  lemma DisplayListed5(st: UnitStandard)
    requires st == Millihenry || st == AmpereTurn
    ensures StandardUnit(st.display) == Some(st)
  {
    if st == Millihenry {
      LookupAt(UnitTable, Millihenry.display, 35);
    } else {
      LookupAt(UnitTable, AmpereTurn.display, 38);
    }
  }

  lemma DisplayListed(st: UnitStandard)
    requires st in Standards && st != Ohm
    ensures StandardUnit(st.display) == Some(st)
  {
    if st == Celsius || st == Fahrenheit || st == Volt {
      DisplayListed1(st);
    } else if st == VoltDC || st == VoltAC || st == Ampere {
      DisplayListed2(st);
    } else if st == MilliAmpere || st == Watt || st == Millisecond {
      DisplayListed3(st);
    } else if st == CubicCentimeter || st == Picofarad {
      DisplayListed4(st);
    } else {
      DisplayListed5(st);
    }
  }

  /** Every entry of the table is for one of the standard units. */
  lemma TableStandards()
    ensures forall j :: 0 <= j < |UnitTable| ==> UnitTable[j].1 in Standards
  {
  }

  /** No case variant of "Ω" is a spelling the table knows (the table lists only the
      spelled-out names "ohm", "ohms", "Ohm" and "Ohms"). */
  lemma OhmUnknown()
    ensures FirstHit(Variants(Ohm.display)) == None
  {
    var d := Ohm.display;
    assert Lower(d) == d && Upper(d) == d && Capitalize(d) == d && Title(d) == d;
    assert Variants(d) == [d, d, d, d, d];
    LookupMissing(UnitTable, d);
  }

  /** Each display symbol is non-empty, stripped and free of '-'. */
  lemma DisplayShape(st: UnitStandard)
    requires st in Standards
    ensures var d := st.display; d != [] && '-' !in d && !IsSpace(d[0]) && !IsSpace(d[|d| - 1])
  {
  }

  /** Each display symbol is stripped, has no '-', and is either a spelling the table maps
      to its own standard or ("Ω") a symbol none of whose case variants the table knows. */
  lemma DisplayFacts(st: UnitStandard)
    requires st in Standards
    ensures var d := st.display; d != [] && '-' !in d && !IsSpace(d[0]) && !IsSpace(d[|d| - 1])
    ensures st == Ohm ==> FirstHit(Variants(st.display)) == None
    ensures st != Ohm ==> FirstHit(Variants(st.display)) == Some(st)
  {
    DisplayShape(st);
    if st == Ohm {
      OhmUnknown();
    } else {
      DisplayListed(st);
      FirstVariantHit(st.display);
    }
  }


  /** A standard suffix has seven letters, all lower-case. */
  lemma StandardSuffixShape(l: string)
    requires Listed(StandardSuffixes, l)
    ensures |l| == 7 && forall i :: 0 <= i < |l| ==> IsLower(l[i])
  {
    ListedIn(StandardSuffixes, l);
  }

  /** A suffix text is stripped and non-empty when the suffix is, and writing it out a
      second time leaves it as it is: "max" is not itself a standard suffix. */
  lemma SuffixTextFixed(s: string)
    requires s != [] && !IsSpace(s[0]) && !IsSpace(s[|s| - 1])
    ensures var t := SuffixText(s); t != [] && !IsSpace(t[0]) && !IsSpace(t[|t| - 1])
    ensures SuffixText(SuffixText(s)) == SuffixText(s)
  {
    var l := Lower(s);
    if Listed(StandardSuffixes, l) {
      StandardSuffixShape(l);
      var t := l[..3];
      assert IsLower(t[0]) && IsLower(t[2]);
      assert |Lower(t)| == 3;
      if Listed(StandardSuffixes, Lower(t)) {
        StandardSuffixShape(Lower(t));
        assert false;
      }
    }
  }

  /** Reading back a standardised unit: the part before the first '-' of
      `display + " - " + t` strips to the display symbol and the rest strips to `t`. */
  lemma ParseWithSuffix(d: string, t: string)
    requires d != [] && '-' !in d && !IsSpace(d[0]) && !IsSpace(d[|d| - 1])
    requires t != [] && !IsSpace(t[0]) && !IsSpace(t[|t| - 1])
    ensures BaseUnit(d + " - " + t) == d && Suffix(d + " - " + t) == Some(t)
  {
    var y := d + " - " + t;
    assert SplitOnce(y, '-') == [d + " ", " " + t] by {
      assert y[..|d| + 1] == d + " ";
      forall k | 0 <= k < |d| + 1 ensures y[k] != '-' {
        if k < |d| { assert y[k] == d[k]; }
      }
      SplitOnceAt(y, '-', |d| + 1);
      var head, rest := d + " -", " " + t;
      assert y == head + rest;
      assert y[|head|..] == rest;
    }
    StripPadRight(d);
    StripPadLeft(t);
  }

  /** A display symbol with no suffix reads back as itself and no suffix. */
  lemma ParseDisplay(d: string)
    requires d != [] && '-' !in d && !IsSpace(d[0]) && !IsSpace(d[|d| - 1])
    ensures BaseUnit(d) == d && Suffix(d) == None
  {
    StripStripped(d);
  }

  /** A symbol that is stripped, free of '-', and that the table maps to a unit displayed
      as that symbol (or not at all) is left as it is, alone or followed by " - " and a
      suffix text. */
  lemma StandardizedDisplay(d: string)
    requires d != [] && '-' !in d && !IsSpace(d[0]) && !IsSpace(d[|d| - 1])
    requires FirstHit(Variants(d)).Some? ==> FirstHit(Variants(d)).value.display == d
    ensures Standardized(Some(d)) == Some(d)
  {
    ParseDisplay(d);
  }

  lemma StandardizedDisplaySuffix(d: string, t: string)
    requires d != [] && '-' !in d && !IsSpace(d[0]) && !IsSpace(d[|d| - 1])
    requires FirstHit(Variants(d)).Some? ==> FirstHit(Variants(d)).value.display == d
    requires t != [] && !IsSpace(t[0]) && !IsSpace(t[|t| - 1]) && SuffixText(t) == t
    ensures Standardized(Some(d + " - " + t)) == Some(d + " - " + t)
  {
    ParseWithSuffix(d, t);
    WithSuffixText(d, t);
  }

  /** With a non-empty suffix, the result is the display symbol, " - " and the suffix text. */
  lemma WithSuffixText(d: string, t: string)
    requires t != []
    ensures WithSuffix(d, Some(t)) == d + " - " + SuffixText(t)
  {
  }

  /** A display symbol is stripped, free of '-', and the table maps it to a unit displayed
      as that symbol, or to none. */
  predicate DisplayFixed(d: string)
  {
    d != [] && '-' !in d && !IsSpace(d[0]) && !IsSpace(d[|d| - 1])
    && (FirstHit(Variants(d)).Some? ==> FirstHit(Variants(d)).value.display == d)
  }

  lemma StandardFixed(st: UnitStandard)
    requires st in Standards
    ensures DisplayFixed(st.display)
  {
    DisplayFacts(st);
  }

  lemma SuffixStripped(x: string, sfx: Option<string>)
    requires sfx == Suffix(x)
    ensures sfx.Some? ==> sfx.value == [] || (!IsSpace(sfx.value[0]) && !IsSpace(sfx.value[|sfx.value| - 1]))
  {
    var parts := SplitOnce(x, '-');
    if |parts| > 1 {
      var t := Strip(parts[1]);
      assert sfx == Some(t);
    }
  }

  /** The output for a known unit standardises to itself, with or without a suffix. */
  lemma WithSuffixFixed(d: string, sfx: Option<string>)
    requires DisplayFixed(d)
    requires sfx.Some? ==> sfx.value == [] || (!IsSpace(sfx.value[0]) && !IsSpace(sfx.value[|sfx.value| - 1]))
    ensures Standardized(Some(WithSuffix(d, sfx))) == Some(WithSuffix(d, sfx))
  {
    if sfx.None? || sfx.value == "" {
      StandardizedDisplay(d);
    } else {
      SuffixTextFixed(sfx.value);
      StandardizedDisplaySuffix(d, SuffixText(sfx.value));
    }
  }

  /** Standardising a standardised unit changes nothing: the output is a fixed point. */
  lemma {:induction false} StandardizedIdempotent(unit: Option<string>)
    ensures Standardized(Standardized(unit)) == Standardized(unit)
  {
    if unit.Some? && unit.value != "" && FirstHit(Variants(BaseUnit(unit.value))).Some? {
      var x := unit.value;
      var st := FirstHit(Variants(BaseUnit(x))).value;
      var sfx := Suffix(x);
      KnownStandardized(x, st, sfx);
      StandardFixed(st);
      SuffixStripped(x, sfx);
      WithSuffixFixed(st.display, sfx);
    }
  }

  lemma KnownStandardized(x: string, st: UnitStandard, sfx: Option<string>)
    requires x != "" && FirstHit(Variants(BaseUnit(x))) == Some(st) && sfx == Suffix(x)
    ensures Standardized(Some(x)) == Some(WithSuffix(st.display, sfx))
  {
  }

  /** A spelling the table knows, followed by " - " and a suffix, becomes the unit's display
      symbol followed by " - " and the suffix text. */
  lemma StandardizedKnown(b: string, s: string)
    requires b != [] && '-' !in b && !IsSpace(b[0]) && !IsSpace(b[|b| - 1])
    requires s != [] && !IsSpace(s[0]) && !IsSpace(s[|s| - 1])
    requires StandardUnit(b).Some?
    ensures Standardized(Some(b + " - " + s)) == Some(StandardUnit(b).value.display + " - " + SuffixText(s))
  {
    ParseWithSuffix(b, s);
    FirstVariantHit(b);
    WithSuffixText(StandardUnit(b).value.display, s);
  }

  /** The example the source documents: "Ohms - maximum" becomes "Ω - max". */
  lemma StandardizedExample()
    ensures Standardized(Some("Ohms - maximum")) == Some("Ω - max")
  {
    assert "Ω" + " - " + "max" == "Ω - max";
    assert "Ohms - maximum" == "Ohms" + " - " + "maximum";
    OhmsListed();
    OhmsShape();
    MaximumAbbreviated();
    StandardizedKnown("Ohms", "maximum");
  }

  lemma OhmsListed()
    ensures StandardUnit("Ohms") == Some(Ohm)
  {
    LookupAt(UnitTable, "Ohms", 5);
  }

  lemma OhmsShape()
    ensures var b := "Ohms"; b != [] && '-' !in b && !IsSpace(b[0]) && !IsSpace(b[|b| - 1])
  {
  }

  lemma MaximumAbbreviated()
    ensures SuffixText("maximum") == "max"
    ensures var s := "maximum"; s != [] && !IsSpace(s[0]) && !IsSpace(s[|s| - 1])
  {
    LowerNoUpper("maximum");
    assert Listed(StandardSuffixes, "maximum");
  }
}
