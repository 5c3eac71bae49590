/** The difference records (src/ai_support_agent/types/differences.py): one `Difference`
    per differing specification, and a `DifferenceAnalysis` whose findings are free-form
    data read through three accessors that fall back to fixed texts. */
module Differences {
  import opened Wrappers
  import opened Dicts
  import opened PyValues
  import opened Seqs

  /** `Difference` (`values` maps a model number to its raw value). */
  datatype Difference = Difference(
    model: string,
    category: string,
    subcategory: Option<string>,
    specification: string,
    difference: string,
    context: Option<string>,
    unit: Option<string>,
    values: Dict<Value>)

  /** The action verbs a `Recommendation` may start with. */
  datatype Action = Choose | Select | Consider | Use | Opt

  /** `Recommendation` */
  datatype Recommendation = Recommendation(action: Action, model: string, context: string, category: string)

  /** `DifferenceAnalysis` (`confidence` is a float in the source, a real here). */
  datatype DifferenceAnalysis = DifferenceAnalysis(
    differences: seq<Difference>,
    aiFindings: Dict<Value>,
    confidence: real,
    metadata: Dict<Value>)

  const NoSummary := "No summary available"
  const NoTechnicalDetails := "No technical details available"

  /** What a built `DifferenceAnalysis` always satisfies: `ge=0, le=1` on `confidence`. */
  predicate ValidAnalysis(a: DifferenceAnalysis)
  {
    0.0 <= a.confidence <= 1.0
  }

  /** Building a `DifferenceAnalysis`: the confidence must lie in [0, 1]. */
  function NewDifferenceAnalysis(differences: seq<Difference>, aiFindings: Dict<Value>, confidence: real,
                                 metadata: Dict<Value>): (r: Result<DifferenceAnalysis, string>)
    ensures r.Ok? <==> 0.0 <= confidence <= 1.0
    ensures r.Ok? ==> ValidAnalysis(r.value) && r.value == DifferenceAnalysis(differences, aiFindings, confidence, metadata)
  {
    if confidence < 0.0 then Err("confidence: Input should be greater than or equal to 0")
    else if confidence > 1.0 then Err("confidence: Input should be less than or equal to 1")
    else Ok(DifferenceAnalysis(differences, aiFindings, confidence, metadata))
  }

  /** `ai_findings["findings"]` when it is present and a dict. */
  function Findings(a: DifferenceAnalysis): (r: Option<Dict<Value>>)
    ensures r.Some? <==> Get(a.aiFindings, "findings").Some? && Get(a.aiFindings, "findings").value.VDict?
    ensures r.Some? ==> Get(a.aiFindings, "findings") == Some(VDict(r.value))
  {
    var v := Get(a.aiFindings, "findings");
    if v.Some? && v.value.VDict? then Some(v.value.entries) else None
  }

  /** The finding stored under `key`, or `default` when there is no findings dict or it
      lacks the key. The stored value is returned as it is, whatever its type. */
  function FindingOr(a: DifferenceAnalysis, key: string, default: string): (r: Value)
    ensures Findings(a).Some? && key in Keys(Findings(a).value) ==> Some(r) == Get(Findings(a).value, key)
    ensures Findings(a).None? || key !in Keys(Findings(a).value) ==> r == VStr(default)
  {
    match Findings(a)
    case None => VStr(default)
    case Some(f) => GetOr(f, key, VStr(default))
  }

  /** The `summary` property. */
  function Summary(a: DifferenceAnalysis): (r: Value)
    ensures Findings(a).Some? && "summary" in Keys(Findings(a).value) ==> Some(r) == Get(Findings(a).value, "summary")
    ensures Findings(a).None? || "summary" !in Keys(Findings(a).value) ==> r == VStr(NoSummary)
  {
    FindingOr(a, "summary", NoSummary)
  }

  /** The `technical_details` property. */
  function TechnicalDetails(a: DifferenceAnalysis): (r: Value)
    ensures Findings(a).Some? && "technical_details" in Keys(Findings(a).value) ==> Some(r) == Get(Findings(a).value, "technical_details")
    ensures Findings(a).None? || "technical_details" !in Keys(Findings(a).value) ==> r == VStr(NoTechnicalDetails)
  {
    FindingOr(a, "technical_details", NoTechnicalDetails)
  }

  /** The action named by a `Literal` string. */
  function ParseAction(s: string): (r: Option<Action>)
    ensures r.Some? <==> s in ["Choose", "Select", "Consider", "Use", "Opt"]
  {
    if s == "Choose" then Some(Choose)
    else if s == "Select" then Some(Select)
    else if s == "Consider" then Some(Consider)
    else if s == "Use" then Some(Use)
    else if s == "Opt" then Some(Opt)
    else None
  }

  /** The keyword arguments `Recommendation(**rec)` accepts. */
  const RecommendationFields: seq<string> := ["action", "model", "context", "category"]

  /** A required string field of a recommendation. */
  function StringField(rec: Dict<Value>, key: string): (r: Result<string, string>)
    ensures r.Ok? <==> Get(rec, key).Some? && Get(rec, key).value.VStr?
    ensures r.Ok? ==> Get(rec, key) == Some(VStr(r.value))
  {
    var v := Get(rec, key);
    if v.None? then Err(key + ": Field required")
    else if v.value.VStr? then Ok(v.value.s)
    else Err(key + ": Input should be a valid string")
  }

  /** `Recommendation(**rec)`: `rec` must be a dict (a keyword-argument mapping) with the
      four fields and no other key (`extra="forbid"`), each a string, the action one of
      the five verbs. */
  function NewRecommendation(rec: Value): (r: Result<Recommendation, string>)
    ensures r.Ok? ==> rec.VDict? && forall k :: k in Keys(rec.entries) ==> k in RecommendationFields
    ensures r.Ok? ==> Get(rec.entries, "action") == Some(VStr(ActionName(r.value.action)))
    ensures r.Ok? ==> Get(rec.entries, "model") == Some(VStr(r.value.model))
    ensures r.Ok? ==> Get(rec.entries, "context") == Some(VStr(r.value.context))
    ensures r.Ok? ==> Get(rec.entries, "category") == Some(VStr(r.value.category))
  {
    if !rec.VDict? then Err("argument after ** must be a mapping")
    else if ExtraField(rec.entries) then Err("Extra inputs are not permitted")
    else RecommendationOfEntries(rec.entries)
  }

  /** A key that is not one of the four fields. */
  predicate ExtraField(entries: Dict<Value>)
  {
    exists k :: k in Keys(entries) && k !in RecommendationFields
  }

  /** The four fields read in order, the first missing or ill-typed one failing. */
  function RecommendationOfEntries(entries: Dict<Value>): (r: Result<Recommendation, string>)
    ensures r.Ok? ==> Get(entries, "action") == Some(VStr(ActionName(r.value.action)))
    ensures r.Ok? ==> Get(entries, "model") == Some(VStr(r.value.model))
    ensures r.Ok? ==> Get(entries, "context") == Some(VStr(r.value.context))
    ensures r.Ok? ==> Get(entries, "category") == Some(VStr(r.value.category))
  {
    var action :- StringField(entries, "action");
    var model :- StringField(entries, "model");
    var context :- StringField(entries, "context");
    var category :- StringField(entries, "category");
    match ParseAction(action)
    case None => Err("action: Input should be 'Choose', 'Select', 'Consider', 'Use' or 'Opt'")
    case Some(a) => ActionNameParse(action); Ok(Recommendation(a, model, context, category))
  }

  function ActionName(a: Action): string
  {
    match a
    case Choose => "Choose"
    case Select => "Select"
    case Consider => "Consider"
    case Use => "Use"
    case Opt => "Opt"
  }

  /** A parsed name is the name of the action it gives. */
  lemma ActionNameParse(s: string)
    ensures ParseAction(s).Some? ==> ActionName(ParseAction(s).value) == s
  {
  }

  /** Parsing an action's name gives the action back. */
  lemma ParseActionName(a: Action)
    ensures ParseAction(ActionName(a)) == Some(a)
  {
    match a
    case Choose =>
    case Select =>
    case Consider =>
    case Use =>
    case Opt =>
  }

  /** `[Recommendation(**rec) for rec in value]`: iterating a list yields its items;
      iterating a dict yields its (string) keys, and a string its characters, neither of
      which is a mapping, so only the empty ones get through; other values are not
      iterable. */
  function RecommendationList(value: Value): (r: Result<seq<Recommendation>, string>)
    ensures r.Ok? && value.VList? ==> |r.value| == |value.items|
    ensures r.Ok? && !value.VList? ==> r.value == []
  {
    match value
    case VList(items) => RecommendationsOf(items)
    case VDict(entries) => if entries == [] then Ok([]) else Err("argument after ** must be a mapping, not str")
    case VStr(s) => if s == [] then Ok([]) else Err("argument after ** must be a mapping, not str")
    case _ => Err("object is not iterable")
  }

  /** `[Recommendation(**rec) for rec in items]` */
  function RecommendationsOf(items: seq<Value>): (r: Result<seq<Recommendation>, string>)
    ensures r.Ok? ==> |r.value| == |items|
  {
    AllOk(items, NewRecommendation)
  }

  /** Each built recommendation is the one its item builds. */
  lemma RecommendationsOfAt(items: seq<Value>, i: nat)
    requires RecommendationsOf(items).Ok? && i < |items|
    ensures NewRecommendation(items[i]) == Ok(RecommendationsOf(items).value[i])
  {
    AllOkAt(items, NewRecommendation, i);
  }

  /** The list fails exactly when one of its items does not build a recommendation. */
  lemma RecommendationsOfErr(items: seq<Value>)
    ensures RecommendationsOf(items).Err? <==> exists i :: 0 <= i < |items| && NewRecommendation(items[i]).Err?
  {
    AllOkErr(items, NewRecommendation);
  }

  /** The `recommendations` property: the recommendations built from
      `findings["recommendations"]`, none when there is no findings dict or no such key. */
  function Recommendations(a: DifferenceAnalysis): (r: Result<seq<Recommendation>, string>)
    ensures Findings(a).None? || "recommendations" !in Keys(Findings(a).value) ==> r == Ok([])
    ensures Findings(a).Some? && "recommendations" in Keys(Findings(a).value) ==>
              r == RecommendationList(Get(Findings(a).value, "recommendations").value)
  {
    match Findings(a)
    case None => Ok([])
    case Some(f) =>
      match Get(f, "recommendations")
      case None => Ok([])
      case Some(v) => RecommendationList(v)
  }

  /** A recommendation written as a dict of its four fields is read back unchanged. */
  lemma RecommendationRoundTrip(r: Recommendation)
    ensures NewRecommendation(VDict([("action", VStr(ActionName(r.action))), ("model", VStr(r.model)),
                                     ("context", VStr(r.context)), ("category", VStr(r.category))])) == Ok(r)
  {
    var d := [("action", VStr(ActionName(r.action))), ("model", VStr(r.model)),
              ("context", VStr(r.context)), ("category", VStr(r.category))];
    FieldsOfFour(d, VStr(ActionName(r.action)), VStr(r.model), VStr(r.context), VStr(r.category));
    RecommendationOfFields(d, r);
  }

  /** A dict with no key besides the four fields, holding a recommendation's strings,
      builds it, whatever the order of its keys. */
  lemma RecommendationOfFields(d: Dict<Value>, r: Recommendation)
    requires forall k :: k in Keys(d) ==> k in RecommendationFields
    requires Get(d, "action") == Some(VStr(ActionName(r.action))) && Get(d, "model") == Some(VStr(r.model))
    requires Get(d, "context") == Some(VStr(r.context)) && Get(d, "category") == Some(VStr(r.category))
    ensures NewRecommendation(VDict(d)) == Ok(r)
  {
    assert !ExtraField(d);
    EntriesOfFields(d, r);
  }

  lemma EntriesOfFields(d: Dict<Value>, r: Recommendation)
    requires Get(d, "action") == Some(VStr(ActionName(r.action))) && Get(d, "model") == Some(VStr(r.model))
    requires Get(d, "context") == Some(VStr(r.context)) && Get(d, "category") == Some(VStr(r.category))
    ensures RecommendationOfEntries(d) == Ok(r)
  {
    ParseActionName(r.action);
    StringFieldOf(d, "action", ActionName(r.action));
    StringFieldOf(d, "model", r.model);
    StringFieldOf(d, "context", r.context);
    StringFieldOf(d, "category", r.category);
  }

  /** What `Recommendation(**rec)` accepts: a dict with no key besides the four fields,
      each field a string, the action one of the five verbs. */
  predicate RecommendationShaped(rec: Value)
  {
    && rec.VDict?
    && (forall k :: k in Keys(rec.entries) ==> k in RecommendationFields)
    && StringField(rec.entries, "action").Ok? && StringField(rec.entries, "model").Ok?
    && StringField(rec.entries, "context").Ok? && StringField(rec.entries, "category").Ok?
    && ParseAction(StringField(rec.entries, "action").value).Some?
  }

  /** `Recommendation(**rec)` succeeds exactly when `rec` has that shape, whatever the
      order of its keys. */
  lemma NewRecommendationOk(rec: Value)
    ensures NewRecommendation(rec).Ok? <==> RecommendationShaped(rec)
  {
    if NewRecommendation(rec).Ok? {
      AcceptedShaped(rec);
    } else if RecommendationShaped(rec) {
      ShapedAccepted(rec);
    }
  }

  lemma AcceptedShaped(rec: Value)
    requires NewRecommendation(rec).Ok?
    ensures RecommendationShaped(rec)
  {
    ParseActionName(NewRecommendation(rec).value.action);
  }

  lemma ShapedAccepted(rec: Value)
    requires RecommendationShaped(rec)
    ensures NewRecommendation(rec).Ok?
  {
    var d := rec.entries;
    var action := StringField(d, "action").value;
    var r := Recommendation(ParseAction(action).value, StringField(d, "model").value,
                            StringField(d, "context").value, StringField(d, "category").value);
    ActionNameParse(action);
    RecommendationOfFields(d, r);
  }

  lemma StringFieldOf(d: Dict<Value>, key: string, s: string)
    requires Get(d, key) == Some(VStr(s))
    ensures StringField(d, key) == Ok(s)
  {
  }

  /** The four fields of a dict written in field order. */
  lemma FieldsOfFour(d: Dict<Value>, action: Value, model: Value, context: Value, category: Value)
    requires d == [("action", action), ("model", model), ("context", context), ("category", category)]
    ensures Keys(d) == RecommendationFields
    ensures Get(d, "action") == Some(action) && Get(d, "model") == Some(model)
    ensures Get(d, "context") == Some(context) && Get(d, "category") == Some(category)
  {
    assert Keys(d) == ["action"] + Keys(d[1..]);
    assert d[1..][1..][1..][1..] == [];
  }
}
