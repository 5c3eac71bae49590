/** The deterministic helpers of the customer support agent
    (src/ai_support_agent/agents/customer_support_agent.py): the attribute path read from a
    query intent's context, the walk down that path through the product information, and
    the prompt assembled from the product information. The language-model calls around
    them are not part of this model; `str()` of a value is the parameter `show`. */
module SupportAgent {
  import opened Wrappers
  import opened Text
  import opened Dicts
  import opened PyValues
  import opened ProductTypes


  /** The context entry for `key`, as a one-element list, or nothing when it is absent. */
  function Entry(context: Dict<Value>, key: string): (r: seq<Value>)
    ensures |r| <= 1
    ensures r != [] <==> key in Keys(context)
    ensures r != [] ==> Get(context, key) == Some(r[0])
  {
    match Get(context, key)
    case None => []
    case Some(v) => [v]
  }

  /** `_get_attribute_path`: the context's section, category and specification, in that
      order, each only when the context has it. */
  function AttributePath(intent: QueryIntent): (r: seq<Value>)
    ensures |r| <= 3
    ensures |r| == |Entry(intent.context, "section")| + |Entry(intent.context, "category")| + |Entry(intent.context, "specification")|
    ensures r == [] <==> "section" !in Keys(intent.context) && "category" !in Keys(intent.context) && "specification" !in Keys(intent.context)
    ensures "section" in Keys(intent.context) ==> Get(intent.context, "section") == Some(r[0])
    ensures "specification" in Keys(intent.context) ==> Get(intent.context, "specification") == Some(r[|r| - 1])
  {
    Entry(intent.context, "section") + Entry(intent.context, "category") + Entry(intent.context, "specification")
  }

  /** `_get_attribute_path`, appending to the path as the source does. */
  method GetAttributePath(intent: QueryIntent) returns (path: seq<Value>)
    ensures path == AttributePath(intent)
  {
    path := [];
    var section := Get(intent.context, "section");
    if section.Some? {
      path := path + [section.value];
    }
    assert path == Entry(intent.context, "section");
    var category := Get(intent.context, "category");
    if category.Some? {
      path := path + [category.value];
    }
    assert path == Entry(intent.context, "section") + Entry(intent.context, "category");
    var specification := Get(intent.context, "specification");
    if specification.Some? {
      path := path + [specification.value];
    }
  }

  /** `d.get(key)` for a hashable key: string-keyed mappings hold only string keys, so any
      other key is absent. */
  function GetKey(d: Dict<Value>, key: Value): Value
  {
    if key.VStr? then GetOr(d, key.s, VNone) else VNone
  }

  /** Walking a path: each key is looked up in the current value while it is a mapping;
      the walk stops (None) at a value that is not a mapping before the keys run out, or at
      a key that cannot be looked up. */
  function Walk(current: Value, path: seq<Value>): (r: Option<Value>)
    ensures path == [] ==> r == Some(current)
    ensures path != [] && !current.VDict? ==> r == None
    decreases |path|
  {
    if path == [] then Some(current)
    else if !current.VDict? || !Hashable(path[0]) then None
    else Walk(GetKey(current.entries, path[0]), path[1..])
  }

  /** A walk along `p + q` is a walk along `p`, then along `q` from where it ended. */
  lemma {:induction false} WalkAppend(v: Value, p: seq<Value>, q: seq<Value>)
    ensures Walk(v, p + q) == match Walk(v, p) case None => None case Some(w) => Walk(w, q)
    decreases |p|
  {
    if p == [] {
      assert p + q == q;
    } else {
      assert (p + q)[0] == p[0] && (p + q)[1..] == p[1..] + q;
      if v.VDict? && Hashable(p[0]) {
        WalkAppend(GetKey(v.entries, p[0]), p[1..], q);
      }
    }
  }

  /** Along string keys through nested mappings that hold them, the walk finds the nested
      value. */
  lemma WalkThrough(d: Dict<Value>, key: string, rest: seq<Value>)
    requires key in Keys(d)
    ensures Walk(VDict(d), [VStr(key)] + rest) == Walk(Get(d, key).value, rest)
  {
    assert ([VStr(key)] + rest)[1..] == rest;
  }

  /** What `extract_specific_attribute` returns when it finds something. */
  datatype Extracted = Extracted(value: Value, path: string, confidence: real)

  /** The keys as strings, when they all are. */
  function KeyStrings(path: seq<Value>): (r: Option<seq<string>>)
    ensures r.Some? ==> |r.value| == |path| && forall i :: 0 <= i < |path| ==> path[i] == VStr(r.value[i])
    ensures r.None? <==> exists i :: 0 <= i < |path| && !path[i].VStr?
  {
    if path == [] then Some([])
    else if !path[0].VStr? then None
    else
      match KeyStrings(path[1..])
      case None => None
      case Some(rest) => Some([path[0].s] + rest)
  }

  /** `extract_specific_attribute`: the value at the end of the walk, the path joined with
      ".", and confidence 1 when the value is not `None`, else 0. A walk that stops, or a
      path that cannot be joined, gives no result. */
  function Extract(productInfo: Dict<Value>, path: seq<Value>): (r: Option<Extracted>)
    ensures r.Some? <==> Walk(VDict(productInfo), path).Some? && KeyStrings(path).Some?
    ensures r.Some? ==> r.value.value == Walk(VDict(productInfo), path).value
    ensures r.Some? ==> r.value.path == Join(KeyStrings(path).value, ".")
    ensures r.Some? ==> (r.value.confidence == 1.0 <==> r.value.value != VNone)
    ensures r.Some? ==> (r.value.confidence == 0.0 <==> r.value.value == VNone)
  {
    match Walk(VDict(productInfo), path)
    case None => None
    case Some(v) =>
      match KeyStrings(path)
      case None => None
      case Some(keys) => Some(Extracted(v, Join(keys, "."), if v != VNone then 1.0 else 0.0))
  }

  /** An empty path gives the whole product information with full confidence. */
  lemma ExtractEmptyPath(productInfo: Dict<Value>)
    ensures Extract(productInfo, []) == Some(Extracted(VDict(productInfo), "", 1.0))
  {
  }

  /** The joined path splits back into the keys when no key contains a dot. */
  lemma {:induction false} ExtractPathKeys(productInfo: Dict<Value>, path: seq<Value>)
    requires path != [] && Extract(productInfo, path).Some?
    requires forall i :: 0 <= i < |path| ==> path[i].VStr? && '.' !in path[i].s
    ensures Split(Extract(productInfo, path).value.path, '.') == KeyStrings(path).value
  {
    var keys := KeyStrings(path).value;
    forall i | 0 <= i < |keys|
      ensures '.' !in keys[i]
    {
      assert path[i] == VStr(keys[i]);
    }
    JoinSplit(keys, '.');
  }

  lemma WalkStep(productInfo: Dict<Value>, path: seq<Value>, i: nat, current: Value)
    requires i < |path|
    requires Walk(current, path[i..]) == Walk(VDict(productInfo), path)
    requires current.VDict? && Hashable(path[i])
    ensures Walk(GetKey(current.entries, path[i]), path[i + 1..]) == Walk(VDict(productInfo), path)
  {
    assert path[i..][0] == path[i] && path[i..][1..] == path[i + 1..];
  }

  lemma WalkStops(path: seq<Value>, i: nat, current: Value)
    requires i < |path|
    requires !current.VDict? || !Hashable(path[i])
    ensures Walk(current, path[i..]) == None
  {
    assert path[i..][0] == path[i];
  }

  /** `extract_specific_attribute`, walking the path with a loop as the source does. */
  method ExtractSpecificAttribute(productInfo: Dict<Value>, path: seq<Value>) returns (r: Option<Extracted>)
    ensures r == Extract(productInfo, path)
  {
    var current := VDict(productInfo);
    assert path[0..] == path;
    for i := 0 to |path|
      invariant Walk(current, path[i..]) == Walk(VDict(productInfo), path)
    {
      if !current.VDict? || !Hashable(path[i]) {
        WalkStops(path, i, current);
        return None;
      }
      WalkStep(productInfo, path, i, current);
      current := GetKey(current.entries, path[i]);
    }
    assert path[|path|..] == [];
    var keys := KeyStrings(path);
    if keys.None? {
      return None;
    }
    r := Some(Extracted(current, Join(keys.value, "."), if current != VNone then 1.0 else 0.0));
  }

  /** `str()` of an optional sub-topic. */
  function OptionText(s: Option<string>): string
  {
    if s.Some? then s.value else "None"
  }

  /** The four lines every response prompt starts with. */
  function PromptHeader(query: string, domain: string, intent: QueryIntent): seq<string>
  {
    ["Customer Query: " + query + "\n",
     "Query Domain: " + domain,
     "Query Focus: " + intent.topic + " - " + OptionText(intent.subTopic) + "\n",
     "Product Information:"]
  }

  /** The four lines every response prompt ends with. */
  const PromptFooter: seq<string> := [
    "\nProvide:",
    "1. Clear answer addressing the specific query focus",
    "2. Relevant technical details to support the answer",
    "3. Confidence level in the response"]

  const SpecificationsLabel := "\nSpecifications:"
  const DifferencesLabel := "\nKey Differences:"
  const AnalysisLabel := "\nAnalysis:"

  /** A labelled block of the prompt: the heading and the shown value, when included. */
  function Block(heading: string, included: bool, shown: string): (r: seq<string>)
    ensures included ==> r == [heading, shown]
    ensures !included ==> r == []
  {
    if included then [heading, shown] else []
  }

  /** The blocks of product information: the specifications whenever the key is present,
      the differences and the analysis only when they are truthy. */
  function InfoBlocks(info: Dict<Value>, show: Value -> string): (r: seq<string>)
    ensures |r| in {0, 2, 4, 6}
  {
    Block(SpecificationsLabel, "specifications" in Keys(info), show(GetOr(info, "specifications", VNone)))
    + Block(DifferencesLabel, Truthy(GetOr(info, "differences", VNone)), show(GetOr(info, "differences", VNone)))
    + Block(AnalysisLabel, Truthy(GetOr(info, "ai_findings", VNone)), show(GetOr(info, "ai_findings", VNone)))
  }

  /** The lines of the response prompt for an intent of the given domain. */
  function ResponseParts(query: string, domain: string, intent: QueryIntent, info: Dict<Value>, show: Value -> string): (r: seq<string>)
    ensures |r| in {8, 10, 12, 14}
    ensures r[..4] == PromptHeader(query, domain, intent) && r[|r| - 4..] == PromptFooter
    ensures r[4..|r| - 4] == InfoBlocks(info, show)
  {
    PromptHeader(query, domain, intent) + InfoBlocks(info, show) + PromptFooter
  }

  /** Every other line of the blocks, from the first: the labels. */
  function Labels(blocks: seq<string>): seq<string>
    decreases |blocks|
  {
    if |blocks| < 2 then [] else [blocks[0]] + Labels(blocks[2..])
  }

  lemma LabelsBlock(heading: string, included: bool, shown: string, rest: seq<string>)
    ensures Labels(Block(heading, included, shown) + rest) == (if included then [heading] else []) + Labels(rest)
  {
    if included {
      assert (Block(heading, included, shown) + rest)[2..] == rest;
    } else {
      assert Block(heading, included, shown) + rest == rest;
    }
  }

  /** The prompt carries the specifications block exactly when the product information has
      the key, and the differences and analysis blocks exactly when those values are
      truthy; each heading is followed by the value shown. */
  lemma PromptBlocks(info: Dict<Value>, show: Value -> string)
    ensures SpecificationsLabel in Labels(InfoBlocks(info, show)) <==> "specifications" in Keys(info)
    ensures DifferencesLabel in Labels(InfoBlocks(info, show)) <==> Truthy(GetOr(info, "differences", VNone))
    ensures AnalysisLabel in Labels(InfoBlocks(info, show)) <==> Truthy(GetOr(info, "ai_findings", VNone))
  {
    BlocksLabels("specifications" in Keys(info), Truthy(GetOr(info, "differences", VNone)), Truthy(GetOr(info, "ai_findings", VNone)),
                 show(GetOr(info, "specifications", VNone)), show(GetOr(info, "differences", VNone)), show(GetOr(info, "ai_findings", VNone)));
  }

  lemma BlocksLabels(c1: bool, c2: bool, c3: bool, s1: string, s2: string, s3: string)
    ensures var labels := Labels(Block(SpecificationsLabel, c1, s1) + Block(DifferencesLabel, c2, s2) + Block(AnalysisLabel, c3, s3));
            (SpecificationsLabel in labels <==> c1) && (DifferencesLabel in labels <==> c2) && (AnalysisLabel in labels <==> c3)
  {
    var b1 := Block(SpecificationsLabel, c1, s1);
    var b2 := Block(DifferencesLabel, c2, s2);
    var b3 := Block(AnalysisLabel, c3, s3);
    assert b1 + b2 + b3 == b1 + (b2 + b3);
    LabelsBlock(AnalysisLabel, c3, s3, []);
    assert b3 + [] == b3;
    LabelsBlock(DifferencesLabel, c2, s2, b3);
    LabelsBlock(SpecificationsLabel, c1, s1, b2 + b3);
  }

  /** `_create_response_prompt` with the intent's domain supplied: the lines joined with
      newlines, built by appending as the source does. */
  method CreateResponsePrompt(query: string, domain: string, intent: QueryIntent, info: Dict<Value>, show: Value -> string) returns (prompt: string)
    ensures prompt == Join(ResponseParts(query, domain, intent, info, show), "\n")
  {
    var header := PromptHeader(query, domain, intent);
    var specifications := GetOr(info, "specifications", VNone);
    var differences := GetOr(info, "differences", VNone);
    var findings := GetOr(info, "ai_findings", VNone);
    ghost var b1 := Block(SpecificationsLabel, "specifications" in Keys(info), show(specifications));
    ghost var b2 := Block(DifferencesLabel, Truthy(differences), show(differences));
    ghost var b3 := Block(AnalysisLabel, Truthy(findings), show(findings));
    assert InfoBlocks(info, show) == b1 + b2 + b3;
    var parts := header;
    if "specifications" in Keys(info) {
      parts := parts + [SpecificationsLabel, show(specifications)];
    }
    assert parts == header + b1;
    if Truthy(differences) {
      parts := parts + [DifferencesLabel, show(differences)];
    }
    assert parts == header + b1 + b2;
    if Truthy(findings) {
      parts := parts + [AnalysisLabel, show(findings)];
    }
    assert parts == header + b1 + b2 + b3;
    Reassociate(header, b1, b2, b3);
    parts := parts + PromptFooter;
    assert parts == ResponseParts(query, domain, intent, info, show);
    prompt := Join(parts, "\n");
  }

  lemma Reassociate(a: seq<string>, b: seq<string>, c: seq<string>, d: seq<string>)
    ensures a + b + c + d == a + (b + c + d)
  {
  }

  /** A join of several pieces starts with the first piece and the separator. */
  lemma JoinFirst(parts: seq<string>, sep: string)
    requires |parts| >= 2
    ensures StartsWith(Join(parts, sep), parts[0] + sep)
  {
    var j := Join(parts, sep);
    assert j == (parts[0] + sep) + Join(parts[1..], sep);
    assert j[..|parts[0] + sep|] == parts[0] + sep;
  }

  /** `_create_response_prompt` as written: it reads `query_intent.domain`, which
      `QueryIntent` does not declare, so every call fails. */
  function ResponsePromptAsWritten(query: string, intent: QueryIntent, info: Dict<Value>, show: Value -> string): Result<string, string>
  {
    Err("'QueryIntent' object has no attribute 'domain'")
  }

  /** As written no prompt is ever produced; with the domain supplied, one always is, and
      it starts with the customer's query. */
  lemma ResponsePromptFails(query: string, domain: string, intent: QueryIntent, info: Dict<Value>, show: Value -> string)
    ensures ResponsePromptAsWritten(query, intent, info, show).Err?
    ensures StartsWith(Join(ResponseParts(query, domain, intent, info, show), "\n"), "Customer Query: " + query + "\n")
  {
    JoinFirst(ResponseParts(query, domain, intent, info, show), "\n");
  }
}
