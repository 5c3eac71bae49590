/** The comparison builder (src/ai_support_agent/tools/compare_processor.py): given the
    parsed documents of the models to compare, it builds the feature/advantage presence
    matrix, aligns the specification paths of all models, flags the paths whose values
    differ, and assembles the response. Loading the documents is not part of the model:
    `models` (model name to parsed document) is an input. */
module CompareProcessor {
  import opened Wrappers
  import opened Text
  import opened Dicts
  import opened Seqs
  import opened Pdf
  import opened Comparison
  import opened Differences
  import opened PyValues

  /** The section holding the "features" and "advantages" lists. */
  const FeaturesSection := "Features_And_Advantages"
  const DiagramSection := "Diagram"

  // ---------------------------------------------------------------------------------
  // Regrouping wrapped bullet lines

  /** A line that starts a new item. */
  predicate IsBullet(line: string)
  {
    StartsWith(line, "•") || StartsWith(line, "-")
  }

  /** `[line.strip() for line in value.split('\n') if line.strip()]` */
  function StrippedLines(value: string): (r: seq<string>)
    ensures forall i :: 0 <= i < |r| ==> r[i] != ""
  {
    NonBlankLines(Split(value, '\n'))
  }

  function NonBlankLines(lines: seq<string>): (r: seq<string>)
    ensures forall i :: 0 <= i < |r| ==> r[i] != ""
  {
    if lines == [] then []
    else
      var line := Strip(lines[0]);
      var rest := NonBlankLines(lines[1..]);
      if line != "" then [line] + rest else rest
  }

  /** The items made from `lines`, `current` being the item under construction: a bullet
      line closes the current item and starts a new one, any other line is appended to
      the current item after one space (or starts it, when there is none). */
  function Regroup(current: string, lines: seq<string>): (r: seq<string>)
    ensures forall i :: 0 <= i < |r| ==> r[i] != ""
    decreases |lines|
  {
    if lines == [] then (if current != "" then [current] else [])
    else if IsBullet(lines[0]) then (if current != "" then [current] else []) + Regroup(lines[0], lines[1..])
    else Regroup(if current != "" then current + " " + lines[0] else lines[0], lines[1..])
  }

  /** The number of bullet lines. */
  function Bullets(lines: seq<string>): nat
  {
    if lines == [] then 0 else (if IsBullet(lines[0]) then 1 else 0) + Bullets(lines[1..])
  }

  /** The line loop of `_process_feature_type`. */
  method RegroupLines(lines: seq<string>) returns (items: seq<string>)
    ensures items == Regroup("", lines)
  {
    items := [];
    var current := "";
    for i := 0 to |lines|
      invariant items + Regroup(current, lines[i..]) == Regroup("", lines)
    {
      assert lines[i..][0] == lines[i] && lines[i..][1..] == lines[i + 1..];
      var line := lines[i];
      if IsBullet(line) {
        if current != "" {
          items := items + [current];
        }
        current := line;
      } else {
        if current != "" {
          current := current + " " + line;
        } else {
          current := line;
        }
      }
    }
    if current != "" {
      items := items + [current];
    }
  }

  /** There is one item per bullet line, plus one for text that comes before the first
      bullet. */
  lemma {:induction false} RegroupCount(current: string, lines: seq<string>)
    requires forall i :: 0 <= i < |lines| ==> lines[i] != ""
    ensures |Regroup(current, lines)| ==
            Bullets(lines) + if current != "" || (lines != [] && !IsBullet(lines[0])) then 1 else 0
    decreases |lines|
  {
    if lines != [] {
      var next := if IsBullet(lines[0]) then lines[0] else if current != "" then current + " " + lines[0] else lines[0];
      RegroupCount(next, lines[1..]);
    }
  }

  /** Every item after the first starts with a bullet, and the first item starts with the
      text that came first. */
  lemma {:induction false} RegroupBullets(current: string, lines: seq<string>)
    requires forall i :: 0 <= i < |lines| ==> lines[i] != ""
    ensures forall i :: 0 < i < |Regroup(current, lines)| ==> IsBullet(Regroup(current, lines)[i])
    ensures current != "" ==> Regroup(current, lines) != [] && StartsWith(Regroup(current, lines)[0], current)
    ensures current == "" && lines != [] ==> Regroup(current, lines) != [] && StartsWith(Regroup(current, lines)[0], lines[0])
    decreases |lines|
  {
    if lines != [] {
      var line := lines[0];
      if IsBullet(line) {
        RegroupBullets(line, lines[1..]);
        var rest := Regroup(line, lines[1..]);
        assert IsBullet(rest[0]) by { StartsWithBullet(line, rest[0]); }
      } else {
        var next := if current != "" then current + " " + line else line;
        RegroupBullets(next, lines[1..]);
        var r := Regroup(next, lines[1..]);
        if current != "" {
          assert r[0][..|current|] == next[..|current|];
        }
      }
    }
  }

  lemma StartsWithBullet(line: string, s: string)
    requires IsBullet(line) && StartsWith(s, line)
    ensures IsBullet(s)
  {
    assert s[..1] == line[..1];
  }

  /** Regrouping keeps every line and its order: the items joined by spaces are the lines
      joined by spaces. */
  lemma {:induction false} RegroupJoin(current: string, lines: seq<string>)
    requires forall i :: 0 <= i < |lines| ==> lines[i] != ""
    ensures Join(Regroup(current, lines), " ") == Join(if current == "" then lines else [current] + lines, " ")
    decreases |lines|
  {
    if lines == [] {
    } else {
      var line := lines[0];
      var tail := lines[1..];
      assert [line] + tail == lines;
      if IsBullet(line) {
        RegroupJoin(line, tail);
        RegroupBullets(line, tail);
        if current != "" {
          var rest := Regroup(line, tail);
          assert Regroup(current, lines) == [current] + rest;
          JoinCons(current, rest);
          JoinCons(current, lines);
        } else {
          assert Regroup(current, lines) == Regroup(line, tail);
        }
      } else if current != "" {
        RegroupJoin(current + " " + line, tail);
        JoinCons(current + " " + line, tail);
        JoinCons(current, lines);
        JoinCons(line, tail);
      } else {
        RegroupJoin(line, tail);
      }
    }
  }

  /** Joining a list that starts with `x`. */
  lemma JoinCons(x: string, rest: seq<string>)
    ensures Join([x] + rest, " ") == if rest == [] then x else x + " " + Join(rest, " ")
  {
    assert ([x] + rest)[1..] == rest;
  }

  // ---------------------------------------------------------------------------------
  // The feature / advantage presence matrix

  /** The non-empty `featureType` text ("features" or "advantages") of a model, stored
      under the "" sub-specification of the Features_And_Advantages section; none when the
      model is not loaded or any level is missing. */
  function FeatureValue(models: map<string, Content>, name: string, featureType: string): Option<string>
  {
    if name !in models then None
    else
      match models[name].GetSpecification(FeaturesSection, featureType, "")
      case None => None
      case Some(spec) => if spec.value == "" then None else Some(spec.value)
  }

  /** The items one model lists. */
  function ModelItems(models: map<string, Content>, name: string, featureType: string): (r: seq<string>)
    ensures forall i :: 0 <= i < |r| ==> r[i] != ""
  {
    match FeatureValue(models, name, featureType)
    case None => []
    case Some(value) => Regroup("", StrippedLines(value))
  }

  /** `{name: name == model_name for name in model_numbers}`, put into `d`. */
  function InitModels(d: Dict<bool>, names: seq<string>, name: string): (r: Dict<bool>)
    ensures UniqueKeys(d) ==> UniqueKeys(r)
    decreases |names|
  {
    if names == [] then d else InitModels(Put(d, names[0], names[0] == name), names[1..], name)
  }

  /** The presence map of a new feature has the model numbers as keys, and only the model
      that listed the feature first is marked. */
  lemma {:induction false} InitModelsGet(d: Dict<bool>, names: seq<string>, name: string, n: string)
    ensures Get(InitModels(d, names, name), n) == if n in names then Some(n == name) else Get(d, n)
    decreases |names|
  {
    if names != [] {
      InitModelsGet(Put(d, names[0], names[0] == name), names[1..], name, n);
      assert n in names <==> n == names[0] || n in names[1..];
    }
  }

  function Texts(features: seq<ComparisonFeature>): (r: seq<string>)
    ensures |r| == |features|
    ensures forall i :: 0 <= i < |features| ==> r[i] == features[i].text
  {
    if features == [] then [] else [features[0].text] + Texts(features[1..])
  }

  /** `feature.models[model_name] = True` on the first feature whose text is `item`. */
  function MarkModel(features: seq<ComparisonFeature>, item: string, name: string): (r: seq<ComparisonFeature>)
    ensures |r| == |features|
    ensures Texts(r) == Texts(features)
  {
    if features == [] then []
    else if features[0].text == item then [features[0].(models := Put(features[0].models, name, true))] + features[1..]
    else [features[0]] + MarkModel(features[1..], item, name)
  }

  /** One item of one model: a known text marks the model on the existing feature, a new
      text becomes a new feature. */
  function AddItem(features: seq<ComparisonFeature>, names: seq<string>, name: string, item: string): seq<ComparisonFeature>
  {
    if item in Texts(features) then MarkModel(features, item, name)
    else features + [ComparisonFeature(item, InitModels([], names, name))]
  }

  function AddItems(features: seq<ComparisonFeature>, names: seq<string>, name: string, items: seq<string>): seq<ComparisonFeature>
    decreases |items|
  {
    if items == [] then features else AddItems(AddItem(features, names, name, items[0]), names, name, items[1..])
  }

  /** The model loop over the models still to visit, `todo`. */
  function AddModels(features: seq<ComparisonFeature>, models: map<string, Content>, names: seq<string>,
                     todo: seq<string>, featureType: string): seq<ComparisonFeature>
    decreases |todo|
  {
    if todo == [] then features
    else AddModels(AddItems(features, names, todo[0], ModelItems(models, todo[0], featureType)),
                   models, names, todo[1..], featureType)
  }

  /** What `_process_feature_type` returns. */
  function FeatureType(models: map<string, Content>, names: seq<string>, featureType: string): seq<ComparisonFeature>
  {
    AddModels([], models, names, names, featureType)
  }

  /** All items of the models in `todo`, in visiting order. */
  function AllItems(models: map<string, Content>, todo: seq<string>, featureType: string): (r: seq<string>)
    ensures forall i :: 0 <= i < |r| ==> r[i] != ""
    decreases |todo|
  {
    if todo == [] then [] else ModelItems(models, todo[0], featureType) + AllItems(models, todo[1..], featureType)
  }

  /** `CompareProcessor._process_feature_type`. */
  method ProcessFeatureType(models: map<string, Content>, modelNumbers: seq<string>, featureType: string)
    returns (features: seq<ComparisonFeature>)
    ensures features == FeatureType(models, modelNumbers, featureType)
  {
    features := [];
    var seenTexts: set<string> := {};
    for k := 0 to |modelNumbers|
      invariant AddModels(features, models, modelNumbers, modelNumbers[k..], featureType) == FeatureType(models, modelNumbers, featureType)
      invariant forall t :: t in seenTexts <==> t in Texts(features)
    {
      assert modelNumbers[k..][0] == modelNumbers[k] && modelNumbers[k..][1..] == modelNumbers[k + 1..];
      var items := ModelFeatureItems(models, modelNumbers[k], featureType);
      features, seenTexts := StoreItems(features, seenTexts, modelNumbers, modelNumbers[k], items);
    }
  }

  /** The checks and the line handling of one iteration of the model loop: the items of
      one model, none when it is skipped. */
  method ModelFeatureItems(models: map<string, Content>, name: string, featureType: string) returns (items: seq<string>)
    ensures items == ModelItems(models, name, featureType)
  {
    if name !in models {
      return [];
    }
    var model := models[name];
    if FeaturesSection !in Keys(model.sections) {
      NoFeatureItems(models, name, featureType);
      return [];
    }
    var section := Get(model.sections, FeaturesSection).value;
    if featureType !in Keys(section.categories) {
      NoFeatureItems(models, name, featureType);
      return [];
    }
    var category := Get(section.categories, featureType).value;
    if "" !in Keys(category.subcategories) {
      NoFeatureItems(models, name, featureType);
      return [];
    }
    var spec := Get(category.subcategories, "").value;
    assert model.GetSpecification(FeaturesSection, featureType, "") == Some(spec);
    if spec.value == "" {
      return [];
    }
    assert FeatureValue(models, name, featureType) == Some(spec.value);
    var lines := StrippedLines(spec.value);
    items := RegroupLines(lines);
  }

  /** A model whose features section, category or "" sub-specification is missing lists
      no items. */
  lemma NoFeatureItems(models: map<string, Content>, name: string, featureType: string)
    requires name in models
    requires models[name].GetSpecification(FeaturesSection, featureType, "").None?
    ensures ModelItems(models, name, featureType) == []
  {
  }

  /** The item loop of one iteration of the model loop. */
  method StoreItems(features: seq<ComparisonFeature>, seenTexts: set<string>, names: seq<string>, name: string, items: seq<string>)
    returns (features': seq<ComparisonFeature>, seenTexts': set<string>)
    requires forall t :: t in seenTexts <==> t in Texts(features)
    ensures features' == AddItems(features, names, name, items)
    ensures forall t :: t in seenTexts' <==> t in Texts(features')
  {
    features', seenTexts' := features, seenTexts;
    for j := 0 to |items|
      invariant AddItems(features', names, name, items[j..]) == AddItems(features, names, name, items)
      invariant forall t :: t in seenTexts' <==> t in Texts(features')
    {
      assert items[j..][0] == items[j] && items[j..][1..] == items[j + 1..];
      var item := items[j];
      if item in seenTexts' {
        features' := MarkFeature(features', item, name);
      } else {
        seenTexts' := seenTexts' + {item};
        var modelsDict := InitModels([], names, name);
        assert Texts(features' + [ComparisonFeature(item, modelsDict)]) == Texts(features') + [item];
        features' := features' + [ComparisonFeature(item, modelsDict)];
      }
    }
  }

  /** `for feature in features: if feature.text == item: feature.models[model_name] = True;
      break` */
  method MarkFeature(features: seq<ComparisonFeature>, item: string, name: string) returns (features': seq<ComparisonFeature>)
    ensures features' == MarkModel(features, item, name)
  {
    features' := features;
    var i := 0;
    while i < |features|
      invariant 0 <= i <= |features|
      invariant forall k :: 0 <= k < i ==> features[k].text != item
    {
      if features[i].text == item {
        features' := features[i := features[i].(models := Put(features[i].models, name, true))];
        MarkModelAt(features, item, name, i);
        return;
      }
      i := i + 1;
    }
    MarkModelAbsent(features, item, name);
  }

  /** The first feature with the text is the one marked. */
  lemma MarkModelAt(features: seq<ComparisonFeature>, item: string, name: string, i: nat)
    requires i < |features| && features[i].text == item
    requires forall k :: 0 <= k < i ==> features[k].text != item
    ensures MarkModel(features, item, name) == features[i := features[i].(models := Put(features[i].models, name, true))]
  {
    var r := MarkModel(features, item, name);
    var u := features[i := features[i].(models := Put(features[i].models, name, true))];
    MarkModelElements(features, item, name, i);
    forall k | 0 <= k < |features|
      ensures r[k] == u[k]
    {
    }
  }

  /** The first feature with the text is marked; every other feature is kept. */
  lemma {:induction false} MarkModelElements(features: seq<ComparisonFeature>, item: string, name: string, i: nat)
    requires i < |features| && features[i].text == item
    requires forall k :: 0 <= k < i ==> features[k].text != item
    ensures MarkModel(features, item, name)[i] == features[i].(models := Put(features[i].models, name, true))
    ensures forall k :: 0 <= k < |features| && k != i ==> MarkModel(features, item, name)[k] == features[k]
    decreases i
  {
    var r := MarkModel(features, item, name);
    if i > 0 {
      var t := MarkModel(features[1..], item, name);
      MarkModelElements(features[1..], item, name, i - 1);
      assert r == [features[0]] + t;
      forall k | 0 <= k < |features| && k != i
        ensures r[k] == features[k]
      {
        if k > 0 {
          assert r[k] == t[k - 1] && features[1..][k - 1] == features[k];
        }
      }
    } else {
      forall k | 0 < k < |features|
        ensures r[k] == features[k]
      {
        assert r[k] == features[1..][k - 1];
      }
    }
  }

  lemma {:induction false} MarkModelAbsent(features: seq<ComparisonFeature>, item: string, name: string)
    requires forall k :: 0 <= k < |features| ==> features[k].text != item
    ensures MarkModel(features, item, name) == features
  {
    if features != [] {
      MarkModelAbsent(features[1..], item, name);
    }
  }

  /** The features list in the order of first sight: the texts are the items of all
      models, in model order, each once. */
  lemma {:induction false} TextsAddItems(features: seq<ComparisonFeature>, names: seq<string>, name: string, items: seq<string>)
    ensures Texts(AddItems(features, names, name, items)) == DedupInto(Texts(features), items)
    decreases |items|
  {
    if items != [] {
      var item := items[0];
      var next := AddItem(features, names, name, item);
      if item !in Texts(features) {
        assert Texts(next) == Texts(features) + [item];
      }
      TextsAddItems(next, names, name, items[1..]);
    }
  }

  lemma {:induction false} TextsAddModels(features: seq<ComparisonFeature>, models: map<string, Content>, names: seq<string>,
                                          todo: seq<string>, featureType: string)
    ensures Texts(AddModels(features, models, names, todo, featureType))
            == DedupInto(Texts(features), AllItems(models, todo, featureType))
    decreases |todo|
  {
    if todo != [] {
      var items := ModelItems(models, todo[0], featureType);
      var next := AddItems(features, names, todo[0], items);
      TextsAddItems(features, names, todo[0], items);
      TextsAddModels(next, models, names, todo[1..], featureType);
      DedupIntoAppend(Texts(features), items, AllItems(models, todo[1..], featureType));
    }
  }

  /** Each item text appears once in the feature list, in first-seen order over the model
      numbers, and is never empty (so building its `ComparisonFeature` cannot fail). */
  lemma FeatureTypeTexts(models: map<string, Content>, names: seq<string>, featureType: string)
    ensures Texts(FeatureType(models, names, featureType)) == Dedup(AllItems(models, names, featureType))
    ensures forall i :: 0 <= i < |FeatureType(models, names, featureType)| ==> FeatureType(models, names, featureType)[i].text != ""
  {
    TextsAddModels([], models, names, names, featureType);
    var f := FeatureType(models, names, featureType);
    forall i | 0 <= i < |f|
      ensures f[i].text != ""
    {
      assert f[i].text in Texts(f);
    }
  }

  /** (model, item) pairs. */
  function Pairs(name: string, items: seq<string>): set<(string, string)>
  {
    set t | t in items :: (name, t)
  }

  lemma PairsCons(name: string, items: seq<string>)
    requires items != []
    ensures Pairs(name, items) == {(name, items[0])} + Pairs(name, items[1..])
  {
    assert forall t :: t in items <==> t == items[0] || t in items[1..];
  }

  /** The (model, item) pairs of the models in `todo`. */
  function AllPairs(models: map<string, Content>, todo: seq<string>, featureType: string): set<(string, string)>
    decreases |todo|
  {
    if todo == [] then {} else Pairs(todo[0], ModelItems(models, todo[0], featureType)) + AllPairs(models, todo[1..], featureType)
  }

  lemma {:induction false} AllPairsIn(models: map<string, Content>, todo: seq<string>, featureType: string, n: string, t: string)
    ensures (n, t) in AllPairs(models, todo, featureType) <==> n in todo && t in ModelItems(models, n, featureType)
    decreases |todo|
  {
    if todo != [] {
      AllPairsIn(models, todo[1..], featureType, n, t);
      assert n in todo <==> n == todo[0] || n in todo[1..];
    }
  }

  /** The presence matrix after the (model, item) pairs `marks` have been read: texts are
      distinct, every read item has its feature, and every feature's map has exactly the
      model numbers as keys, with `true` for the models that listed its text. */
  ghost predicate Matrix(features: seq<ComparisonFeature>, names: seq<string>, marks: set<(string, string)>)
  {
    && Distinct(Texts(features))
    && (forall p :: p in marks ==> p.1 in Texts(features))
    && forall i :: 0 <= i < |features| ==> Row(features[i], names, marks)
  }

  /** One feature's row of the matrix. */
  ghost predicate Row(f: ComparisonFeature, names: seq<string>, marks: set<(string, string)>)
  {
    forall n :: Get(f.models, n) == if n in names then Some((n, f.text) in marks) else None
  }

  /** Marking one feature's model keeps its row of the matrix in step with the new pair. */
  lemma MarkedRow(f: ComparisonFeature, names: seq<string>, name: string, marks: set<(string, string)>)
    requires name in names && Row(f, names, marks)
    ensures Row(f.(models := Put(f.models, name, true)), names, marks + {(name, f.text)})
  {
  }

  /** A row is untouched by a pair about another text. */
  lemma OtherRow(f: ComparisonFeature, names: seq<string>, name: string, item: string, marks: set<(string, string)>)
    requires Row(f, names, marks) && f.text != item
    ensures Row(f, names, marks + {(name, item)})
  {
  }

  /** An item already listed marks its feature for the model. */
  lemma AddItemMatrixSeen(features: seq<ComparisonFeature>, names: seq<string>, name: string, item: string,
                          marks: set<(string, string)>)
    requires Matrix(features, names, marks) && name in names && item in Texts(features)
    ensures Matrix(AddItem(features, names, name, item), names, marks + {(name, item)})
  {
    var j := TextAt(features, item);
    MarkModelAt(features, item, name, j);
    MarkedRows(features, names, name, item, marks, j);
    var r := AddItem(features, names, name, item);
    assert r == MarkModel(features, item, name);
    KeptMatrix(features, r, names, marks, name, item);
  }

  /** The feature holding a listed text, with no earlier feature holding it. */
  lemma TextAt(features: seq<ComparisonFeature>, item: string) returns (j: nat)
    requires Distinct(Texts(features)) && item in Texts(features)
    ensures j < |features| && features[j].text == item
    ensures forall k :: 0 <= k < j ==> features[k].text != item
  {
    j :| 0 <= j < |features| && Texts(features)[j] == item;
    forall k | 0 <= k < j ensures features[k].text != item {
      assert Texts(features)[k] != Texts(features)[j];
    }
  }

  /** Rows brought in step with one more pair, over the same texts, keep the matrix. */
  lemma KeptMatrix(features: seq<ComparisonFeature>, r: seq<ComparisonFeature>, names: seq<string>,
                   marks: set<(string, string)>, name: string, item: string)
    requires Matrix(features, names, marks) && item in Texts(features) && Texts(r) == Texts(features)
    requires forall i :: 0 <= i < |r| ==> Row(r[i], names, marks + {(name, item)})
    ensures Matrix(r, names, marks + {(name, item)})
  {
  }

  /** Marking the feature at `j`, the one whose text is `item`, keeps every row in step. */
  lemma MarkedRows(features: seq<ComparisonFeature>, names: seq<string>, name: string, item: string,
                   marks: set<(string, string)>, j: nat)
    requires Matrix(features, names, marks) && name in names && j < |features| && features[j].text == item
    ensures var r := features[j := features[j].(models := Put(features[j].models, name, true))];
            forall i :: 0 <= i < |r| ==> Row(r[i], names, marks + {(name, item)})
  {
    var marks' := marks + {(name, item)};
    var r := features[j := features[j].(models := Put(features[j].models, name, true))];
    forall i | 0 <= i < |r|
      ensures Row(r[i], names, marks')
    {
      if i == j {
        MarkedRow(features[j], names, name, marks);
      } else {
        assert Texts(features)[i] != Texts(features)[j];
        OtherRow(features[i], names, name, item, marks);
      }
    }
  }

  /** A new item gets a feature whose only `true` model is the one that listed it. */
  lemma AddItemMatrixNew(features: seq<ComparisonFeature>, names: seq<string>, name: string, item: string,
                         marks: set<(string, string)>)
    requires Matrix(features, names, marks) && name in names && item !in Texts(features)
    ensures Matrix(AddItem(features, names, name, item), names, marks + {(name, item)})
  {
    var r := features + [ComparisonFeature(item, InitModels([], names, name))];
    assert AddItem(features, names, name, item) == r;
    assert Texts(r) == Texts(features) + [item];
    NewItemRows(features, r, names, name, item, marks);
    GrownMatrix(features, r, names, marks, name, item);
  }

  /** The rows after a new feature is appended for `item`. */
  lemma NewItemRows(features: seq<ComparisonFeature>, r: seq<ComparisonFeature>, names: seq<string>, name: string, item: string,
                    marks: set<(string, string)>)
    requires Matrix(features, names, marks) && name in names && item !in Texts(features)
    requires r == features + [ComparisonFeature(item, InitModels([], names, name))]
    ensures forall i :: 0 <= i < |r| ==> Row(r[i], names, marks + {(name, item)})
  {
    var marks' := marks + {(name, item)};
    forall i | 0 <= i < |r|
      ensures Row(r[i], names, marks')
    {
      if i < |features| {
        assert r[i] == features[i];
        assert Texts(features)[i] == features[i].text;
        OtherRow(features[i], names, name, item, marks);
      } else {
        NewRow(names, name, item, marks);
      }
    }
  }

  /** The row of a new feature: only the model that listed it is marked. */
  lemma NewRow(names: seq<string>, name: string, item: string, marks: set<(string, string)>)
    requires forall p :: p in marks ==> p.1 != item
    ensures Row(ComparisonFeature(item, InitModels([], names, name)), names, marks + {(name, item)})
  {
    forall n
      ensures Get(InitModels([], names, name), n) == if n in names then Some((n, item) in marks + {(name, item)}) else None
    {
      InitModelsGet([], names, name, n);
      assert (n, item) in marks + {(name, item)} <==> n == name;
    }
  }

  /** Rows in step with one more pair, over the texts and one new text, keep the matrix. */
  lemma GrownMatrix(features: seq<ComparisonFeature>, r: seq<ComparisonFeature>, names: seq<string>,
                    marks: set<(string, string)>, name: string, item: string)
    requires Matrix(features, names, marks) && item !in Texts(features) && Texts(r) == Texts(features) + [item]
    requires forall i :: 0 <= i < |r| ==> Row(r[i], names, marks + {(name, item)})
    ensures Matrix(r, names, marks + {(name, item)})
  {
    forall i, j | 0 <= i < j < |Texts(r)|
      ensures Texts(r)[i] != Texts(r)[j]
    {
      if j == |features| {
        assert Texts(r)[i] == Texts(features)[i];
      }
    }
  }

  lemma AddItemMatrix(features: seq<ComparisonFeature>, names: seq<string>, name: string, item: string,
                      marks: set<(string, string)>)
    requires Matrix(features, names, marks) && name in names
    ensures Matrix(AddItem(features, names, name, item), names, marks + {(name, item)})
  {
    if item in Texts(features) {
      AddItemMatrixSeen(features, names, name, item, marks);
    } else {
      AddItemMatrixNew(features, names, name, item, marks);
    }
  }

  lemma {:induction false} AddItemsMatrix(features: seq<ComparisonFeature>, names: seq<string>, name: string,
                                          items: seq<string>, marks: set<(string, string)>)
    requires Matrix(features, names, marks) && name in names
    ensures Matrix(AddItems(features, names, name, items), names, marks + Pairs(name, items))
    decreases |items|
  {
    if items == [] {
      assert marks + Pairs(name, items) == marks;
    } else {
      var next := AddItem(features, names, name, items[0]);
      var marks' := marks + {(name, items[0])};
      AddItemMatrix(features, names, name, items[0], marks);
      AddItemsMatrix(next, names, name, items[1..], marks');
      PairsCons(name, items);
      assert marks' + Pairs(name, items[1..]) == marks + Pairs(name, items);
      assert AddItems(features, names, name, items) == AddItems(next, names, name, items[1..]);
    }
  }

  lemma {:induction false} AddModelsMatrix(features: seq<ComparisonFeature>, models: map<string, Content>, names: seq<string>,
                                           todo: seq<string>, featureType: string, marks: set<(string, string)>)
    requires Matrix(features, names, marks)
    requires forall n :: n in todo ==> n in names
    ensures Matrix(AddModels(features, models, names, todo, featureType), names, marks + AllPairs(models, todo, featureType))
    decreases |todo|
  {
    if todo == [] {
      assert marks + AllPairs(models, todo, featureType) == marks;
    } else {
      var items := ModelItems(models, todo[0], featureType);
      AddItemsMatrix(features, names, todo[0], items, marks);
      AddModelsMatrix(AddItems(features, names, todo[0], items), models, names, todo[1..], featureType, marks + Pairs(todo[0], items));
      assert marks + Pairs(todo[0], items) + AllPairs(models, todo[1..], featureType) == marks + AllPairs(models, todo, featureType);
    }
  }

  /** Every feature's `models` map has exactly the model numbers as keys, and a model maps
      to true exactly when its own list contains the text; models that are not loaded, or
      list nothing, stay false. */
  lemma FeatureTypeModels(models: map<string, Content>, names: seq<string>, featureType: string, i: nat, n: string)
    requires i < |FeatureType(models, names, featureType)|
    ensures Get(FeatureType(models, names, featureType)[i].models, n) ==
            if n in names then Some(FeatureType(models, names, featureType)[i].text in ModelItems(models, n, featureType)) else None
  {
    var f := FeatureType(models, names, featureType);
    AddModelsMatrix([], models, names, names, featureType, {});
    assert Row(f[i], names, AllPairs(models, names, featureType));
    assert {} + AllPairs(models, names, featureType) == AllPairs(models, names, featureType);
    AllPairsIn(models, names, featureType, n, f[i].text);
  }

  // ---------------------------------------------------------------------------------
  // Aligning the specification paths

  /** A (section, category, sub-specification) combination. */
  datatype SpecPath = SpecPath(section: string, category: string, spec: string)

  /** The sections whose contents are not compared as specifications. */
  predicate Skipped(section: string)
  {
    section == FeaturesSection || section == DiagramSection
  }

  /** The paths of one category's sub-specifications, in order. */
  function SubPaths(section: string, category: string, subs: Dict<Specification>): (r: seq<SpecPath>)
    ensures |r| == |subs|
    ensures forall i :: 0 <= i < |subs| ==> r[i] == SpecPath(section, category, subs[i].0)
  {
    if subs == [] then [] else [SpecPath(section, category, subs[0].0)] + SubPaths(section, category, subs[1..])
  }

  /** The paths of one section, category by category. */
  function CategoryPaths(section: string, categories: Dict<Category>): seq<SpecPath>
  {
    if categories == [] then []
    else SubPaths(section, categories[0].0, categories[0].1.subcategories) + CategoryPaths(section, categories[1..])
  }

  /** The paths of one document, section by section, skipping the feature and diagram
      sections. */
  function SectionPaths(sections: Dict<Section>): seq<SpecPath>
  {
    if sections == [] then []
    else (if Skipped(sections[0].0) then [] else CategoryPaths(sections[0].0, sections[0].1.categories))
         + SectionPaths(sections[1..])
  }

  /** The paths of the loaded models among `todo`, model by model. */
  function ModelPaths(models: map<string, Content>, todo: seq<string>): seq<SpecPath>
  {
    if todo == [] then []
    else (if todo[0] in models then SectionPaths(models[todo[0]].sections) else []) + ModelPaths(models, todo[1..])
  }

  /** `spec_combinations`: every path of every loaded model, once, in first-seen order. */
  function Combinations(models: map<string, Content>, names: seq<string>): (r: seq<SpecPath>)
    ensures Distinct(r)
  {
    Dedup(ModelPaths(models, names))
  }

  /** The document has a specification under the path, outside the skipped sections. */
  ghost predicate HasPath(c: Content, p: SpecPath)
  {
    && !Skipped(p.section)
    && exists s, cat :: (p.section, s) in c.sections && (p.category, cat) in s.categories
                        && p.spec in Keys(cat.subcategories)
  }

  lemma SubPathsIn(section: string, category: string, subs: Dict<Specification>, p: SpecPath)
    ensures p in SubPaths(section, category, subs) <==>
            p.section == section && p.category == category && p.spec in Keys(subs)
  {
    var r := SubPaths(section, category, subs);
    if p.section == section && p.category == category && p.spec in Keys(subs) {
      var i :| 0 <= i < |subs| && Keys(subs)[i] == p.spec;
      assert r[i] == p;
    }
  }

  lemma {:induction false} CategoryPathsIn(section: string, categories: Dict<Category>, p: SpecPath)
    ensures p in CategoryPaths(section, categories) <==>
            p.section == section && exists cat :: (p.category, cat) in categories && p.spec in Keys(cat.subcategories)
  {
    if categories != [] {
      SubPathsIn(section, categories[0].0, categories[0].1.subcategories, p);
      CategoryPathsIn(section, categories[1..], p);
      assert forall e :: e in categories <==> e == categories[0] || e in categories[1..];
    }
  }

  lemma {:induction false} SectionPathsIn(sections: Dict<Section>, p: SpecPath)
    ensures p in SectionPaths(sections) <==>
            && !Skipped(p.section)
            && exists s, cat :: (p.section, s) in sections && (p.category, cat) in s.categories
                                && p.spec in Keys(cat.subcategories)
  {
    if sections != [] {
      CategoryPathsIn(sections[0].0, sections[0].1.categories, p);
      SectionPathsIn(sections[1..], p);
      assert forall e :: e in sections <==> e == sections[0] || e in sections[1..];
    }
  }

  lemma {:induction false} ModelPathsIn(models: map<string, Content>, todo: seq<string>, p: SpecPath)
    ensures p in ModelPaths(models, todo) <==> exists n :: n in todo && n in models && HasPath(models[n], p)
  {
    if todo != [] {
      if todo[0] in models {
        SectionPathsIn(models[todo[0]].sections, p);
      }
      ModelPathsIn(models, todo[1..], p);
      assert forall n :: n in todo <==> n == todo[0] || n in todo[1..];
    }
  }

  /** The combinations are exactly the paths some loaded model has, each once. */
  lemma CombinationsIn(models: map<string, Content>, names: seq<string>, p: SpecPath)
    ensures p in Combinations(models, names) <==> exists n :: n in names && n in models && HasPath(models[n], p)
  {
    ModelPathsIn(models, names, p);
  }

  /** For a well-formed document, having the path is finding a specification under it. */
  lemma HasPathLookup(c: Content, p: SpecPath)
    requires WellFormed(c)
    ensures HasPath(c, p) <==> !Skipped(p.section) && c.GetSpecification(p.section, p.category, p.spec).Some?
  {
    GetSpecificationNone(c, p.section, p.category, p.spec);
    forall s, cat | (p.section, s) in c.sections && (p.category, cat) in s.categories
      ensures p.spec in Keys(cat.subcategories) <==> exists spec :: (p.spec, spec) in cat.subcategories
    {
      KeyIn(cat.subcategories, p.spec);
    }
  }

  /** `if section_name not in sections: sections[section_name] = []` for every section of
      one document that is not skipped. */
  function OpenSections(d: Dict<seq<ComparisonSpecification>>, sections: Dict<Section>): (r: Dict<seq<ComparisonSpecification>>)
    ensures UniqueKeys(d) ==> UniqueKeys(r)
    decreases |sections|
  {
    if sections == [] then d
    else
      var name := sections[0].0;
      OpenSections(if Skipped(name) || name in Keys(d) then d else Put(d, name, []), sections[1..])
  }

  function OpenModels(d: Dict<seq<ComparisonSpecification>>, models: map<string, Content>, todo: seq<string>): (r: Dict<seq<ComparisonSpecification>>)
    ensures UniqueKeys(d) ==> UniqueKeys(r)
    decreases |todo|
  {
    if todo == [] then d
    else OpenModels(if todo[0] in models then OpenSections(d, models[todo[0]].sections) else d, models, todo[1..])
  }

  /** The section lists before any specification is added. */
  function InitialSections(models: map<string, Content>, names: seq<string>): Dict<seq<ComparisonSpecification>>
  {
    OpenModels([], models, names)
  }

  lemma {:induction false} OpenSectionsGet(d: Dict<seq<ComparisonSpecification>>, sections: Dict<Section>, s: string)
    ensures Get(OpenSections(d, sections), s) ==
            if s in Keys(d) then Get(d, s) else if !Skipped(s) && s in Keys(sections) then Some([]) else None
    decreases |sections|
  {
    if sections != [] {
      var name := sections[0].0;
      OpenSectionsGet(if Skipped(name) || name in Keys(d) then d else Put(d, name, []), sections[1..], s);
      assert Keys(sections) == [name] + Keys(sections[1..]);
    }
  }

  /** A section is listed (with no specifications yet) exactly when a loaded model has it
      and it is not skipped. */
  lemma {:induction false} OpenModelsGet(d: Dict<seq<ComparisonSpecification>>, models: map<string, Content>,
                                         todo: seq<string>, s: string)
    ensures Get(OpenModels(d, models, todo), s) ==
            if s in Keys(d) then Get(d, s)
            else if !Skipped(s) && exists n :: n in todo && n in models && s in Keys(models[n].sections) then Some([])
            else None
    decreases |todo|
  {
    if todo != [] {
      var d' := if todo[0] in models then OpenSections(d, models[todo[0]].sections) else d;
      if todo[0] in models {
        OpenSectionsGet(d, models[todo[0]].sections, s);
      }
      OpenModelsGet(d', models, todo[1..], s);
      assert forall n :: n in todo <==> n == todo[0] || n in todo[1..];
    }
  }

  /** Every combination's section has been opened, so appending to it never misses. */
  lemma CombinationSectionOpen(models: map<string, Content>, names: seq<string>, p: SpecPath)
    requires p in Combinations(models, names)
    ensures Get(InitialSections(models, names), p.section) == Some([])
  {
    CombinationsIn(models, names, p);
    var n :| n in names && n in models && HasPath(models[n], p);
    var s :| (p.section, s) in models[n].sections;
    KeyIn(models[n].sections, p.section);
    OpenModelsGet([], models, names, p.section);
  }

  /** The first loop of `_process_specifications`: opens the section lists and collects
      the combinations, with `seen` holding the combinations met so far. */
  method CollectCombinations(models: map<string, Content>, modelNumbers: seq<string>)
    returns (sections: Dict<seq<ComparisonSpecification>>, combinations: seq<SpecPath>)
    ensures sections == InitialSections(models, modelNumbers)
    ensures combinations == Combinations(models, modelNumbers)
  {
    sections, combinations := [], [];
    var seen: set<SpecPath> := {};
    for k := 0 to |modelNumbers|
      invariant OpenModels(sections, models, modelNumbers[k..]) == InitialSections(models, modelNumbers)
      invariant DedupInto(combinations, ModelPaths(models, modelNumbers[k..])) == Combinations(models, modelNumbers)
      invariant forall p :: p in seen <==> p in combinations
    {
      var name := modelNumbers[k];
      assert modelNumbers[k..][0] == name && modelNumbers[k..][1..] == modelNumbers[k + 1..];
      DedupIntoAppend(combinations, if name in models then SectionPaths(models[name].sections) else [],
                      ModelPaths(models, modelNumbers[k + 1..]));
      if name in models {
        sections, combinations, seen := CollectSections(sections, combinations, seen, models[name].sections);
      }
    }
  }

  /** The section loop for one document. */
  method CollectSections(sections: Dict<seq<ComparisonSpecification>>, combinations: seq<SpecPath>, seen: set<SpecPath>,
                         docSections: Dict<Section>)
    returns (sections': Dict<seq<ComparisonSpecification>>, combinations': seq<SpecPath>, seen': set<SpecPath>)
    requires forall p :: p in seen <==> p in combinations
    ensures sections' == OpenSections(sections, docSections)
    ensures combinations' == DedupInto(combinations, SectionPaths(docSections))
    ensures forall p :: p in seen' <==> p in combinations'
  {
    sections', combinations', seen' := sections, combinations, seen;
    for j := 0 to |docSections|
      invariant OpenSections(sections', docSections[j..]) == OpenSections(sections, docSections)
      invariant DedupInto(combinations', SectionPaths(docSections[j..])) == DedupInto(combinations, SectionPaths(docSections))
      invariant forall p :: p in seen' <==> p in combinations'
    {
      var (name, section) := docSections[j];
      assert docSections[j..][0] == docSections[j] && docSections[j..][1..] == docSections[j + 1..];
      ghost var tail := SectionPaths(docSections[j + 1..]);
      assert SectionPaths(docSections[j..]) == (if Skipped(name) then [] else CategoryPaths(name, section.categories)) + tail;
      if Skipped(name) {
        assert [] + tail == tail;
      } else {
        if name !in Keys(sections') {
          sections' := Put(sections', name, []);
        }
        DedupIntoAppend(combinations', CategoryPaths(name, section.categories), SectionPaths(docSections[j + 1..]));
        combinations', seen' := CollectCategories(combinations', seen', name, section.categories);
      }
    }
  }

  /** The category loop of one section. */
  method CollectCategories(combinations: seq<SpecPath>, seen: set<SpecPath>, section: string, categories: Dict<Category>)
    returns (combinations': seq<SpecPath>, seen': set<SpecPath>)
    requires forall p :: p in seen <==> p in combinations
    ensures combinations' == DedupInto(combinations, CategoryPaths(section, categories))
    ensures forall p :: p in seen' <==> p in combinations'
  {
    combinations', seen' := combinations, seen;
    for j := 0 to |categories|
      invariant DedupInto(combinations', CategoryPaths(section, categories[j..])) == DedupInto(combinations, CategoryPaths(section, categories))
      invariant forall p :: p in seen' <==> p in combinations'
    {
      var (name, category) := categories[j];
      assert categories[j..][0] == categories[j] && categories[j..][1..] == categories[j + 1..];
      DedupIntoAppend(combinations', SubPaths(section, name, category.subcategories), CategoryPaths(section, categories[j + 1..]));
      combinations', seen' := CollectSubs(combinations', seen', section, name, category.subcategories);
    }
  }

  /** The sub-specification loop of one category: a combination not seen before is
      appended and remembered. */
  method CollectSubs(combinations: seq<SpecPath>, seen: set<SpecPath>, section: string, category: string,
                     subs: Dict<Specification>)
    returns (combinations': seq<SpecPath>, seen': set<SpecPath>)
    requires forall p :: p in seen <==> p in combinations
    ensures combinations' == DedupInto(combinations, SubPaths(section, category, subs))
    ensures forall p :: p in seen' <==> p in combinations'
  {
    combinations', seen' := combinations, seen;
    for j := 0 to |subs|
      invariant DedupInto(combinations', SubPaths(section, category, subs[j..])) == DedupInto(combinations, SubPaths(section, category, subs))
      invariant forall p :: p in seen' <==> p in combinations'
    {
      var combination := SpecPath(section, category, subs[j].0);
      var rest := SubPaths(section, category, subs[j..]);
      assert rest[0] == combination && rest[1..] == SubPaths(section, category, subs[j + 1..]);
      if combination !in seen' {
        combinations' := combinations' + [combination];
        seen' := seen' + {combination};
      }
    }
  }

  // ---------------------------------------------------------------------------------
  // Values, differences

  /** The specification a model has under the path (`_get_spec_value`), none when the
      model is not loaded or the path is missing. */
  function ModelSpec(models: map<string, Content>, name: string, p: SpecPath): Option<Specification>
  {
    if name !in models then None else models[name].GetSpecification(p.section, p.category, p.spec)
  }

  /** The `SpecificationValue` fields a specification carries over. */
  function AsValue(spec: Specification): SpecificationValue
  {
    SpecificationValue(spec.unit, spec.value, spec.DisplayValue())
  }

  /** The `values` loop over the models still to visit: each model with a specification
      under the path adds its value; building a value with an empty `value` fails. */
  function ValuesInto(acc: Dict<SpecificationValue>, models: map<string, Content>, todo: seq<string>, p: SpecPath)
    : (r: Result<Dict<SpecificationValue>, string>)
    ensures r.Ok? && UniqueKeys(acc) ==> UniqueKeys(r.value)
    decreases |todo|
  {
    if todo == [] then Ok(acc)
    else
      match ModelSpec(models, todo[0], p)
      case None => ValuesInto(acc, models, todo[1..], p)
      case Some(spec) =>
        match NewSpecificationValue(spec.unit, spec.value, spec.DisplayValue())
        case Err(e) => Err(e)
        case Ok(v) => ValuesInto(Put(acc, todo[0], v), models, todo[1..], p)
  }

  /** The `values` of one combination. */
  function Values(models: map<string, Content>, names: seq<string>, p: SpecPath): (r: Result<Dict<SpecificationValue>, string>)
    ensures r.Ok? ==> UniqueKeys(r.value)
  {
    ValuesInto([], models, names, p)
  }

  /** Model `n` has a specification under the path, with an empty value. */
  predicate EmptyValueAt(models: map<string, Content>, n: string, p: SpecPath)
  {
    ModelSpec(models, n, p).Some? && ModelSpec(models, n, p).value.value == ""
  }

  /** Building the values fails exactly when a participating model has the path with an
      empty value. */
  lemma {:induction false} ValuesIntoErr(acc: Dict<SpecificationValue>, models: map<string, Content>, todo: seq<string>, p: SpecPath)
    ensures ValuesInto(acc, models, todo, p).Err? <==>
            exists n :: n in todo && EmptyValueAt(models, n, p)
    decreases |todo|
  {
    if todo != [] {
      var spec := ModelSpec(models, todo[0], p);
      var acc' := if spec.Some? then Put(acc, todo[0], AsValue(spec.value)) else acc;
      ValuesIntoErr(acc', models, todo[1..], p);
      EmptyValueShift(models, todo, p);
      assert ValuesInto(acc, models, todo, p).Err? <==>
             (spec.Some? && spec.value.value == "") || ValuesInto(acc', models, todo[1..], p).Err?;
    }
  }

  /** Some model to visit has the path with an empty value exactly when the first one does
      or one of the rest does. */
  lemma EmptyValueShift(models: map<string, Content>, todo: seq<string>, p: SpecPath)
    requires todo != []
    ensures (exists n :: n in todo && EmptyValueAt(models, n, p)) <==>
            EmptyValueAt(models, todo[0], p) ||
            exists n :: n in todo[1..] && EmptyValueAt(models, n, p)
  {
    SomeShift(todo, n => EmptyValueAt(models, n, p));
  }

  /** A participating model with the path has its value in `values`; a model without the
      path, or not loaded, is left out. */
  lemma {:induction false} ValuesIntoGet(acc: Dict<SpecificationValue>, models: map<string, Content>, todo: seq<string>,
                                         p: SpecPath, n: string)
    requires ValuesInto(acc, models, todo, p).Ok?
    ensures Get(ValuesInto(acc, models, todo, p).value, n) ==
            if n in todo && ModelSpec(models, n, p).Some? then Some(AsValue(ModelSpec(models, n, p).value)) else Get(acc, n)
    decreases |todo|
  {
    if todo != [] {
      var spec := ModelSpec(models, todo[0], p);
      var acc' := if spec.Some? then Put(acc, todo[0], AsValue(spec.value)) else acc;
      ValuesIntoGet(acc', models, todo[1..], p, n);
      assert forall n :: n in todo <==> n == todo[0] || n in todo[1..];
    }
  }

  /** `values` holds exactly the participating models that have the path. */
  lemma ValuesGet(models: map<string, Content>, names: seq<string>, p: SpecPath, n: string)
    requires Values(models, names, p).Ok?
    ensures Get(Values(models, names, p).value, n) ==
            if n in names && ModelSpec(models, n, p).Some? then Some(AsValue(ModelSpec(models, n, p).value)) else None
  {
    ValuesIntoGet([], models, names, p, n);
  }

  /** The loop computing one combination's `values`. */
  method CollectValues(models: map<string, Content>, modelNumbers: seq<string>, p: SpecPath)
    returns (r: Result<Dict<SpecificationValue>, string>)
    ensures r == Values(models, modelNumbers, p)
  {
    var values: Dict<SpecificationValue> := [];
    for k := 0 to |modelNumbers|
      invariant ValuesInto(values, models, modelNumbers[k..], p) == Values(models, modelNumbers, p)
    {
      var name := modelNumbers[k];
      assert modelNumbers[k..][0] == name && modelNumbers[k..][1..] == modelNumbers[k + 1..];
      if name in models {
        var spec := models[name].GetSpecification(p.section, p.category, p.spec);
        if spec.Some? {
          var v := NewSpecificationValue(spec.value.unit, spec.value.value, spec.value.DisplayValue());
          if v.Err? {
            return Err(v.error);
          }
          values := Put(values, name, v.value);
        }
      }
    }
    return Ok(values);
  }

  /** `{v.value for v in values.values()}` */
  function ValueSet(values: Dict<SpecificationValue>): set<string>
  {
    set i | 0 <= i < |values| :: values[i].1.value
  }

  /** `has_differences`: more than one distinct value string. */
  predicate HasDifferences(values: Dict<SpecificationValue>)
  {
    |ValueSet(values)| > 1
  }

  /** A combination differs exactly when two of its present models have different value
      strings: units, display values and absent models play no part. */
  lemma HasDifferencesIff(values: Dict<SpecificationValue>)
    ensures HasDifferences(values) <==>
            exists i, j :: 0 <= i < |values| && 0 <= j < |values| && values[i].1.value != values[j].1.value
  {
    var s := ValueSet(values);
    if HasDifferences(values) {
      var a :| a in s;
      var i :| 0 <= i < |values| && values[i].1.value == a;
      assert |s - {a}| == |s| - 1;
      var b :| b in s - {a};
      var j :| 0 <= j < |values| && values[j].1.value == b;
      assert values[i].1.value != values[j].1.value;
    }
    if exists i, j :: 0 <= i < |values| && 0 <= j < |values| && values[i].1.value != values[j].1.value {
      var i, j :| 0 <= i < |values| && 0 <= j < |values| && values[i].1.value != values[j].1.value;
      var a, b := values[i].1.value, values[j].1.value;
      assert a in s && b in s;
      assert |s - {a}| == |s| - 1;
      assert b in s - {a};
    }
  }

  /** A path only one model has is never a difference. */
  lemma SingleValueNoDifference(values: Dict<SpecificationValue>)
    requires |values| <= 1
    ensures !HasDifferences(values)
  {
    HasDifferencesIff(values);
  }

  /** `v.value.replace('.', '', 1)`: the string without its first '.'. */
  function RemoveFirstDot(s: string): (r: string)
    ensures '.' in s ==> |r| == |s| - 1
    ensures '.' !in s ==> r == s
  {
    if s == [] then []
    else if s[0] == '.' then s[1..]
    else [s[0]] + RemoveFirstDot(s[1..])
  }

  /** The numeric test of the difference description: digits with at most one '.'. */
  predicate IsNumber(s: string)
  {
    AllDigits(RemoveFirstDot(s))
  }

  predicate AllNumeric(values: Dict<SpecificationValue>)
  {
    forall i :: 0 <= i < |values| ==> IsNumber(values[i].1.value)
  }

  /** `{k: v.value for k, v in values.items()}` */
  function RawValues(values: Dict<SpecificationValue>): (r: Dict<Value>)
    ensures |r| == |values|
    ensures forall i :: 0 <= i < |values| ==> r[i] == (values[i].0, VStr(values[i].1.value))
  {
    if values == [] then [] else [(values[0].0, VStr(values[0].1.value))] + RawValues(values[1..])
  }

  /** `[v.value for k, v in values.items() if k != model]` */
  function OtherValues(values: Dict<SpecificationValue>, model: string): seq<string>
  {
    if values == [] then []
    else (if values[0].0 != model then [values[0].1.value] else []) + OtherValues(values[1..], model)
  }

  /** The textual description: the first model's value against the others'. */
  function TextualDescription(values: Dict<SpecificationValue>): string
    requires values != []
  {
    "Value of " + values[0].1.value + " vs " + Join(OtherValues(values, values[0].0), ", ")
  }

  /** The `Difference` recorded for a differing specification. When every value is
      numeric the source picks the model with the largest absolute value and describes
      the maximum against the minimum, by float conversion and formatting; `numeric`
      stands for that choice, from the raw values to (model, description). Otherwise the
      first model is reported against the others' values. */
  function DifferenceFor(section: string, spec: ComparisonSpecification, numeric: Dict<Value> -> (string, string)): (d: Difference)
    requires spec.values != []
    ensures d.category == section && d.subcategory == Some(spec.category) && d.specification == spec.specification
    ensures d.unit == spec.values[0].1.unit && d.values == RawValues(spec.values) && d.context == None
    ensures !AllNumeric(spec.values) ==> d.model == spec.values[0].0 && d.difference == TextualDescription(spec.values)
  {
    var values := spec.values;
    var (model, description) :=
      if AllNumeric(values) then numeric(RawValues(values))
      else (values[0].0, TextualDescription(values));
    Difference(model, section, Some(spec.category), spec.specification, description, None, values[0].1.unit, RawValues(values))
  }

  /** With distinct keys the other values are all values but the first model's. */
  lemma {:induction false} OtherValuesTail(values: Dict<SpecificationValue>)
    requires values != [] && UniqueKeys(values)
    ensures OtherValues(values, values[0].0) == ValueStrings(values[1..])
  {
    OtherValuesAll(values[1..], values[0].0);
  }

  function ValueStrings(values: Dict<SpecificationValue>): (r: seq<string>)
    ensures |r| == |values| && forall i :: 0 <= i < |values| ==> r[i] == values[i].1.value
  {
    if values == [] then [] else [values[0].1.value] + ValueStrings(values[1..])
  }

  lemma {:induction false} OtherValuesAll(values: Dict<SpecificationValue>, model: string)
    requires forall i :: 0 <= i < |values| ==> values[i].0 != model
    ensures OtherValues(values, model) == ValueStrings(values)
  {
    if values != [] {
      OtherValuesAll(values[1..], model);
    }
  }

  // ---------------------------------------------------------------------------------
  // Building the specification lists

  /** The `ComparisonSpecification` of a combination. */
  function SpecFor(p: SpecPath, values: Dict<SpecificationValue>): ComparisonSpecification
  {
    ComparisonSpecification(p.category, p.spec, values, HasDifferences(values))
  }

  /** The second loop of `_process_specifications` over the combinations still to
      process: each combination with at least one value adds its specification, paired
      with its section; the first value that cannot be built stops everything. */
  function BuildFrom(acc: seq<(string, ComparisonSpecification)>, models: map<string, Content>, names: seq<string>,
                     combinations: seq<SpecPath>): Result<seq<(string, ComparisonSpecification)>, string>
    decreases |combinations|
  {
    if combinations == [] then Ok(acc)
    else
      match Values(models, names, combinations[0])
      case Err(e) => Err(e)
      case Ok(values) =>
        BuildFrom(acc + (if values == [] then [] else [(combinations[0].section, SpecFor(combinations[0], values))]),
                  models, names, combinations[1..])
  }

  /** The specifications the combinations make, errors aside. */
  function Made(models: map<string, Content>, names: seq<string>, combinations: seq<SpecPath>): seq<(string, ComparisonSpecification)>
  {
    if combinations == [] then []
    else MadeOne(models, names, combinations[0]) + Made(models, names, combinations[1..])
  }

  /** The specification one combination makes, if its values build and are not empty. */
  function MadeOne(models: map<string, Content>, names: seq<string>, p: SpecPath): (r: seq<(string, ComparisonSpecification)>)
    ensures |r| <= 1
    ensures r != [] <==> Values(models, names, p).Ok? && Values(models, names, p).value != []
    ensures r != [] ==> r[0] == (p.section, SpecFor(p, Values(models, names, p).value))
  {
    var v := Values(models, names, p);
    if v.Ok? && v.value != [] then [(p.section, SpecFor(p, v.value))] else []
  }

  /** The loop fails exactly when some combination's values cannot be built, and otherwise
      adds exactly the specifications the combinations make. */
  lemma BuildFromMade(acc: seq<(string, ComparisonSpecification)>, models: map<string, Content>,
                      names: seq<string>, combinations: seq<SpecPath>)
    ensures BuildFrom(acc, models, names, combinations).Err? <==>
            exists i :: 0 <= i < |combinations| && Values(models, names, combinations[i]).Err?
    ensures BuildFrom(acc, models, names, combinations).Ok? ==>
            BuildFrom(acc, models, names, combinations).value == acc + Made(models, names, combinations)
  {
    BuildFromErr(acc, models, names, combinations);
    BuildFromValue(acc, models, names, combinations);
  }

  lemma {:induction false} BuildFromErr(acc: seq<(string, ComparisonSpecification)>, models: map<string, Content>,
                                        names: seq<string>, combinations: seq<SpecPath>)
    ensures BuildFrom(acc, models, names, combinations).Err? <==>
            exists i :: 0 <= i < |combinations| && Values(models, names, combinations[i]).Err?
    decreases |combinations|
  {
    if combinations != [] {
      var p := combinations[0];
      var v := Values(models, names, p);
      SomeAtShift(combinations, p => Values(models, names, p).Err?);
      if v.Ok? {
        var acc' := acc + (if v.value == [] then [] else [(p.section, SpecFor(p, v.value))]);
        assert BuildFrom(acc, models, names, combinations) == BuildFrom(acc', models, names, combinations[1..]);
        BuildFromErr(acc', models, names, combinations[1..]);
      }
    }
  }

  /** Some combination fails exactly when the first one or one of the rest does. */
  lemma {:induction false} BuildFromValue(acc: seq<(string, ComparisonSpecification)>, models: map<string, Content>,
                                          names: seq<string>, combinations: seq<SpecPath>)
    ensures BuildFrom(acc, models, names, combinations).Ok? ==>
            BuildFrom(acc, models, names, combinations).value == acc + Made(models, names, combinations)
    decreases |combinations|
  {
    if combinations != [] {
      var p := combinations[0];
      var v := Values(models, names, p);
      if v.Ok? {
        var head := MadeOne(models, names, p);
        var acc' := acc + head;
        assert BuildFrom(acc, models, names, combinations) == BuildFrom(acc', models, names, combinations[1..]);
        BuildFromValue(acc', models, names, combinations[1..]);
        assert Made(models, names, combinations) == head + Made(models, names, combinations[1..]);
        assert acc' + Made(models, names, combinations[1..]) == acc + Made(models, names, combinations);
      }
    }
  }

  /** Every specification made comes from a combination, carries that combination's
      (non-empty) values, and is flagged exactly when those values differ. */
  lemma {:induction false} MadeEntry(models: map<string, Content>, names: seq<string>, combinations: seq<SpecPath>, i: nat)
    returns (p: SpecPath)
    requires i < |Made(models, names, combinations)|
    ensures p in combinations
    ensures Values(models, names, p).Ok? && Values(models, names, p).value != []
    ensures Made(models, names, combinations)[i] == (p.section, SpecFor(p, Values(models, names, p).value))
    decreases |combinations|
  {
    var q := combinations[0];
    var head := MadeOne(models, names, q);
    var tail := Made(models, names, combinations[1..]);
    assert Made(models, names, combinations) == head + tail;
    if i < |head| {
      p := q;
    } else {
      p := MadeEntry(models, names, combinations[1..], i - |head|);
      assert p in combinations;
    }
  }

  /** The specifications whose flag is set all have values. */
  predicate Consistent(built: seq<(string, ComparisonSpecification)>)
  {
    forall i :: 0 <= i < |built| && built[i].1.hasDifferences ==> built[i].1.values != []
  }

  lemma MadeConsistent(models: map<string, Content>, names: seq<string>, combinations: seq<SpecPath>)
    ensures Consistent(Made(models, names, combinations))
  {
    forall i | 0 <= i < |Made(models, names, combinations)|
      ensures Made(models, names, combinations)[i].1.values != []
    {
      var p := MadeEntry(models, names, combinations, i);
    }
  }

  /** `differences`: one `Difference` per flagged specification, in order. */
  function DiffsOf(built: seq<(string, ComparisonSpecification)>, numeric: Dict<Value> -> (string, string)): seq<Difference>
    requires Consistent(built)
  {
    if built == [] then []
    else (if built[0].1.hasDifferences then [DifferenceFor(built[0].0, built[0].1, numeric)] else [])
         + DiffsOf(built[1..], numeric)
  }

  /** The number of flagged specifications. */
  function Flagged(built: seq<(string, ComparisonSpecification)>): nat
  {
    if built == [] then 0 else (if built[0].1.hasDifferences then 1 else 0) + Flagged(built[1..])
  }

  /** There are as many differences as flagged specifications. */
  lemma {:induction false} DiffsCount(built: seq<(string, ComparisonSpecification)>, numeric: Dict<Value> -> (string, string))
    requires Consistent(built)
    ensures |DiffsOf(built, numeric)| == Flagged(built)
  {
    if built != [] {
      DiffsCount(built[1..], numeric);
    }
  }

  lemma {:induction false} DiffsOfSnoc(built: seq<(string, ComparisonSpecification)>, x: (string, ComparisonSpecification),
                                       numeric: Dict<Value> -> (string, string))
    requires Consistent(built) && (x.1.hasDifferences ==> x.1.values != [])
    ensures Consistent(built + [x])
    ensures DiffsOf(built + [x], numeric) ==
            DiffsOf(built, numeric) + (if x.1.hasDifferences then [DifferenceFor(x.0, x.1, numeric)] else [])
    decreases |built|
  {
    assert forall i :: 0 <= i < |built| ==> (built + [x])[i] == built[i];
    assert (built + [x])[|built|] == x;
    if built == [] {
      assert built + [x] == [x];
    } else {
      assert (built + [x])[0] == built[0] && (built + [x])[1..] == built[1..] + [x];
      DiffsOfSnoc(built[1..], x, numeric);
    }
  }

  /** What `_process_specifications` returns: the section lists and the differences. */
  function SpecificationLists(models: map<string, Content>, names: seq<string>, numeric: Dict<Value> -> (string, string))
    : Result<(Dict<seq<ComparisonSpecification>>, seq<Difference>), string>
  {
    var combinations := Combinations(models, names);
    match BuildFrom([], models, names, combinations)
    case Err(e) => Err(e)
    case Ok(built) =>
      BuildFromMade([], models, names, combinations);
      MadeConsistent(models, names, combinations);
      assert built == Made(models, names, combinations);
      Ok((Group(InitialSections(models, names), built), DiffsOf(built, numeric)))
  }

  /** `CompareProcessor._process_specifications`. */
  method ProcessSpecifications(models: map<string, Content>, modelNumbers: seq<string>, numeric: Dict<Value> -> (string, string))
    returns (r: Result<(Dict<seq<ComparisonSpecification>>, seq<Difference>), string>)
    ensures r == SpecificationLists(models, modelNumbers, numeric)
  {
    var sections, combinations := CollectCombinations(models, modelNumbers);
    ghost var initial := sections;
    var differences: seq<Difference> := [];
    ghost var built: seq<(string, ComparisonSpecification)> := [];
    BuildFromMade([], models, modelNumbers, combinations);
    MadeConsistent(models, modelNumbers, combinations);
    for k := 0 to |combinations|
      invariant BuildFrom(built, models, modelNumbers, combinations[k..]) == BuildFrom([], models, modelNumbers, combinations)
      invariant Consistent(built)
      invariant sections == Group(initial, built)
      invariant differences == DiffsOf(built, numeric)
    {
      var p := combinations[k];
      assert combinations[k..][0] == p && combinations[k..][1..] == combinations[k + 1..];
      var values := CollectValues(models, modelNumbers, p);
      if values.Err? {
        return Err(values.error);
      }
      assert BuildFrom(built, models, modelNumbers, combinations[k..]) ==
             BuildFrom(built + (if values.value == [] then [] else [(p.section, SpecFor(p, values.value))]),
                       models, modelNumbers, combinations[k + 1..]);
      if values.value == [] {
        assert built + [] == built;
      } else {
        var spec := SpecFor(p, values.value);
        GroupSnoc(initial, built, (p.section, spec));
        DiffsOfSnoc(built, (p.section, spec), numeric);
        sections, differences := StoreSpecification(sections, differences, p, values.value, numeric);
        built := built + [(p.section, spec)];
      }
    }
    return Ok((sections, differences));
  }

  /** One combination with values: its specification is appended to its section's list
      and, when its values differ, its `Difference` to the differences. */
  method StoreSpecification(sections: Dict<seq<ComparisonSpecification>>, differences: seq<Difference>, p: SpecPath,
                            values: Dict<SpecificationValue>, numeric: Dict<Value> -> (string, string))
    returns (sections': Dict<seq<ComparisonSpecification>>, differences': seq<Difference>)
    requires values != []
    ensures sections' == Append(sections, p.section, SpecFor(p, values))
    ensures differences' == differences + (if HasDifferences(values) then [DifferenceFor(p.section, SpecFor(p, values), numeric)] else [])
  {
    var unique := set i | 0 <= i < |values| :: values[i].1.value;
    var hasDifferences := |unique| > 1;
    var spec := ComparisonSpecification(p.category, p.spec, values, hasDifferences);
    sections' := Append(sections, p.section, spec);
    differences' := differences;
    if hasDifferences {
      differences' := differences' + [DifferenceFor(p.section, spec, numeric)];
    }
  }

  /** The sections a loaded model has, outside the skipped ones. */
  ghost predicate Opened(models: map<string, Content>, names: seq<string>, s: string)
  {
    !Skipped(s) && exists n :: n in names && n in models && s in Keys(models[n].sections)
  }

  /** The section lists `_process_specifications` returns: one list per section some loaded
      model has (never the feature or diagram section), holding the specifications made
      for that section in combination order; and as many differences as flagged
      specifications. */
  lemma SpecificationListsShape(models: map<string, Content>, names: seq<string>, numeric: Dict<Value> -> (string, string), s: string)
    requires SpecificationLists(models, names, numeric).Ok?
    ensures var (sections, differences) := SpecificationLists(models, names, numeric).value;
            && UniqueKeys(sections)
            && |differences| == Flagged(Made(models, names, Combinations(models, names)))
            && Get(sections, s) == if Opened(models, names, s) then Some(Having(Made(models, names, Combinations(models, names)), s)) else None
  {
    var combinations := Combinations(models, names);
    var built := Made(models, names, combinations);
    BuildFromMade([], models, names, combinations);
    MadeConsistent(models, names, combinations);
    assert BuildFrom([], models, names, combinations).value == built;
    assert SpecificationLists(models, names, numeric).value == (Group(InitialSections(models, names), built), DiffsOf(built, numeric));
    DiffsCount(built, numeric);
    GroupedSectionGet(models, names, s);
  }

  /** A section's list after grouping: the specifications made for it when some model
      opened it, and no list otherwise. */
  lemma GroupedSectionGet(models: map<string, Content>, names: seq<string>, s: string)
    ensures Get(Group(InitialSections(models, names), Made(models, names, Combinations(models, names))), s)
            == if Opened(models, names, s) then Some(Having(Made(models, names, Combinations(models, names)), s)) else None
  {
    var built := Made(models, names, Combinations(models, names));
    var initial := InitialSections(models, names);
    GroupGet(initial, built, s);
    InitialGet(models, names, s);
    if Opened(models, names, s) {
      assert GetOr(initial, s, []) == [];
      assert [] + Having(built, s) == Having(built, s);
    } else if s in Keys(built) {
      MadeSectionOpened(models, names, s);
      assert false;
    }
  }

  /** The opened section lists start empty; no other section has one. */
  lemma InitialGet(models: map<string, Content>, names: seq<string>, s: string)
    ensures Get(InitialSections(models, names), s) == if Opened(models, names, s) then Some([]) else None
  {
    OpenModelsGet([], models, names, s);
  }

  /** Every specification made belongs to an opened section. */
  lemma MadeSectionOpened(models: map<string, Content>, names: seq<string>, s: string)
    requires s in Keys(Made(models, names, Combinations(models, names)))
    ensures Opened(models, names, s)
  {
    var combinations := Combinations(models, names);
    var built := Made(models, names, combinations);
    var i :| 0 <= i < |built| && Keys(built)[i] == s;
    var p := MadeEntry(models, names, combinations, i);
    CombinationSectionOpen(models, names, p);
    InitialGet(models, names, s);
  }

  // ---------------------------------------------------------------------------------
  // Assembling the response

  /** The `categories` of the Features_And_Advantages section: each list that is not
      empty, features first. */
  function FeatureCategories(features: seq<ComparisonFeature>, advantages: seq<ComparisonFeature>): Dict<SectionEntries>
  {
    (if features != [] then [("features", Features(features))] else [])
    + (if advantages != [] then [("advantages", Features(advantages))] else [])
  }

  /** Each specification paired with its category. */
  function CategoryPairs(specs: seq<ComparisonSpecification>): (r: seq<(string, ComparisonSpecification)>)
    ensures |r| == |specs| && forall i :: 0 <= i < |specs| ==> r[i] == (specs[i].category, specs[i])
  {
    if specs == [] then [] else [(specs[0].category, specs[0])] + CategoryPairs(specs[1..])
  }

  /** A section's specifications grouped by category, categories in first-seen order. */
  function ByCategory(specs: seq<ComparisonSpecification>): Dict<seq<ComparisonSpecification>>
  {
    Group([], CategoryPairs(specs))
  }

  /** The grouped lists as section entries. */
  function AsEntries(d: Dict<seq<ComparisonSpecification>>): (r: Dict<SectionEntries>)
    ensures |r| == |d| && forall i :: 0 <= i < |d| ==> r[i] == (d[i].0, Specifications(d[i].1))
  {
    if d == [] then [] else [(d[0].0, Specifications(d[0].1))] + AsEntries(d[1..])
  }

  /** The response section of one specification section. */
  function SpecSection(specs: seq<ComparisonSpecification>): ComparisonSection
  {
    ComparisonSection(AsEntries(ByCategory(specs)))
  }

  /** The loop over the section lists, each becoming a response section. */
  function SpecSections(d: Dict<ComparisonSection>, sections: Dict<seq<ComparisonSpecification>>): Dict<ComparisonSection>
    decreases |sections|
  {
    if sections == [] then d else SpecSections(Put(d, sections[0].0, SpecSection(sections[0].1)), sections[1..])
  }

  /** `response_sections`. */
  function ResponseSections(features: seq<ComparisonFeature>, advantages: seq<ComparisonFeature>,
                            sections: Dict<seq<ComparisonSpecification>>): Dict<ComparisonSection>
  {
    var head := if features != [] || advantages != [] then [(FeaturesSection, ComparisonSection(FeatureCategories(features, advantages)))] else [];
    SpecSections(head, sections)
  }

  /** What `compare_models` returns for the loaded documents `models`; `comparisonId` is
      the fresh identifier the source draws with `uuid4`. */
  function Compare(models: map<string, Content>, names: seq<string>, comparisonId: string,
                   numeric: Dict<Value> -> (string, string)): Result<ComparisonResponse, string>
  {
    if models == map[] then NewComparisonResponse(names, comparisonId, [], 0)
    else
      match SpecificationLists(models, names, numeric)
      case Err(e) => Err(e)
      case Ok((sections, differences)) =>
        var features := FeatureType(models, names, "features");
        var advantages := FeatureType(models, names, "advantages");
        NewComparisonResponse(names, comparisonId, ResponseSections(features, advantages, sections), |differences|)
  }

  /** `CompareProcessor.compare_models`, from the loaded documents on. */
  method CompareModels(models: map<string, Content>, modelNumbers: seq<string>, comparisonId: string,
                       numeric: Dict<Value> -> (string, string))
    returns (r: Result<ComparisonResponse, string>)
    ensures r == Compare(models, modelNumbers, comparisonId, numeric)
  {
    if models == map[] {
      return NewComparisonResponse(modelNumbers, comparisonId, [], 0);
    }
    var features := ProcessFeatureType(models, modelNumbers, "features");
    var advantages := ProcessFeatureType(models, modelNumbers, "advantages");
    var specs := ProcessSpecifications(models, modelNumbers, numeric);
    if specs.Err? {
      return Err(specs.error);
    }
    var (sections, differences) := specs.value;
    var responseSections: Dict<ComparisonSection> := [];
    if features != [] || advantages != [] {
      var categories: Dict<SectionEntries> := [];
      if features != [] {
        categories := Put(categories, "features", Features(features));
      }
      assert categories == if features != [] then [("features", Features(features))] else [];
      if advantages != [] {
        assert Put([], "advantages", Features(advantages)) == [("advantages", Features(advantages))];
        categories := Put(categories, "advantages", Features(advantages));
      }
      if categories != [] {
        responseSections := Put(responseSections, FeaturesSection, ComparisonSection(categories));
      }
      assert categories == FeatureCategories(features, advantages);
    }
    responseSections := AssembleSections(responseSections, sections);
    return NewComparisonResponse(modelNumbers, comparisonId, responseSections, |differences|);
  }

  /** The section loop of `compare_models`. */
  method AssembleSections(d: Dict<ComparisonSection>, sections: Dict<seq<ComparisonSpecification>>)
    returns (d': Dict<ComparisonSection>)
    ensures d' == SpecSections(d, sections)
  {
    d' := d;
    for j := 0 to |sections|
      invariant SpecSections(d', sections[j..]) == SpecSections(d, sections)
    {
      assert sections[j..][0] == sections[j] && sections[j..][1..] == sections[j + 1..];
      var categories := GroupByCategory(sections[j].1);
      d' := Put(d', sections[j].0, ComparisonSection(AsEntries(categories)));
    }
  }

  /** The category loop of `compare_models`: `if category not in categories: categories[category] = []`
      then an append. */
  method GroupByCategory(specs: seq<ComparisonSpecification>) returns (categories: Dict<seq<ComparisonSpecification>>)
    ensures categories == ByCategory(specs)
  {
    categories := [];
    for j := 0 to |specs|
      invariant Group(categories, CategoryPairs(specs[j..])) == ByCategory(specs)
    {
      var spec := specs[j];
      var rest := CategoryPairs(specs[j..]);
      assert rest[0] == (spec.category, spec) && rest[1..] == CategoryPairs(specs[j + 1..]);
      ghost var before := categories;
      if spec.category !in Keys(categories) {
        PutPut(categories, spec.category, [], [spec]);
        categories := Put(categories, spec.category, []);
        assert GetOr(categories, spec.category, []) + [spec] == GetOr(before, spec.category, []) + [spec] == [spec];
      }
      categories := Put(categories, spec.category, GetOr(categories, spec.category, []) + [spec]);
      assert categories == Append(before, spec.category, spec);
    }
  }

  /** Each category's list is the section's specifications of that category, in order,
      and the categories appear in first-seen order. */
  lemma ByCategoryShape(specs: seq<ComparisonSpecification>, c: string)
    ensures Keys(ByCategory(specs)) == Dedup(Keys(CategoryPairs(specs)))
    ensures Get(ByCategory(specs), c) == if c in Keys(CategoryPairs(specs)) then Some(Having(CategoryPairs(specs), c)) else None
  {
    GroupKeys([], CategoryPairs(specs));
    GroupGet([], CategoryPairs(specs), c);
    assert [] + Having(CategoryPairs(specs), c) == Having(CategoryPairs(specs), c);
  }

  lemma {:induction false} SpecSectionsGet(d: Dict<ComparisonSection>, sections: Dict<seq<ComparisonSpecification>>, s: string)
    requires UniqueKeys(sections)
    ensures Get(SpecSections(d, sections), s) ==
            if s in Keys(sections) then Some(SpecSection(Get(sections, s).value)) else Get(d, s)
    decreases |sections|
  {
    if sections != [] {
      assert Keys(sections) == [sections[0].0] + Keys(sections[1..]);
      assert UniqueKeys(sections[1..]);
      SpecSectionsGet(Put(d, sections[0].0, SpecSection(sections[0].1)), sections[1..], s);
    }
  }

  /** The response of `compare_models`: no loaded model gives no sections and no
      differences; otherwise the Features_And_Advantages section is present exactly when
      there are features or advantages, and holds the non-empty lists; every other section
      is a section some loaded model has, its specifications grouped by category; and the
      difference count is the number of flagged specifications. */
  lemma CompareShape(models: map<string, Content>, names: seq<string>, comparisonId: string,
                     numeric: Dict<Value> -> (string, string), s: string)
    requires Compare(models, names, comparisonId, numeric).Ok?
    ensures |names| >= 2 && comparisonId != ""
    ensures models == map[] ==> Compare(models, names, comparisonId, numeric).value == ComparisonResponse(names, comparisonId, [], 0)
    ensures models != map[] ==>
              var r := Compare(models, names, comparisonId, numeric).value;
              var features := FeatureType(models, names, "features");
              var advantages := FeatureType(models, names, "advantages");
              var made := Made(models, names, Combinations(models, names));
              && r.differencesCount == Flagged(made)
              && Get(r.sections, FeaturesSection) ==
                   (if features != [] || advantages != [] then Some(ComparisonSection(FeatureCategories(features, advantages))) else None)
              && (s != FeaturesSection ==>
                   Get(r.sections, s) == if Opened(models, names, s) then Some(SpecSection(Having(made, s))) else None)
  {
    if models != map[] {
      var (sections, differences) := SpecificationLists(models, names, numeric).value;
      SpecificationListsShape(models, names, numeric, s);
      SpecificationListsShape(models, names, numeric, FeaturesSection);
      var features := FeatureType(models, names, "features");
      var advantages := FeatureType(models, names, "advantages");
      var head := if features != [] || advantages != [] then [(FeaturesSection, ComparisonSection(FeatureCategories(features, advantages)))] else [];
      SpecSectionsGet(head, sections, s);
      SpecSectionsGet(head, sections, FeaturesSection);
    }
  }
}
