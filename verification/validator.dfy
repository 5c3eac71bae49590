/** The static checks of the pattern validator (src/pattern_enforcer/validator.py): the
    blacklist and required-import checks over the import and call records of a Python file,
    and `validate_file`, which runs them in order. Parsing the file and walking its syntax
    tree are not part of this model: the records are inputs, and only the part of the
    record construction the validator computes itself, the dotted source of an attribute
    call, is modelled. */
module Validator {
  import opened Wrappers
  import opened Text
  import opened Dicts
  import opened PyValues
  import opened PatternErrors
  import opened Seqs

  /** `ValidationResult` (`violations` and `messages` default to `None`). */
  datatype ValidationResult = ValidationResult(valid: bool, violations: Option<seq<string>>, messages: Option<seq<string>>)

  /** `ValidationResult.__bool__`: a result is truthy exactly when it is valid. */
  predicate Truthy(r: ValidationResult)
  {
    r.valid
  }

  /** An import record (`find_imports`): `import name [as asname]` or
      `from module import name [as asname]`, where the module of a relative import such as
      `from . import x` is `None`. */
  datatype ImportRecord =
    | PlainImport(name: string, asname: Option<string>)
    | FromImport(moduleName: Option<string>, name: string, asname: Option<string>)

  /** The callee expression of a call, as far as the validator looks into it. */
  datatype Expr = Name(id: string) | Attribute(value: Expr, attr: string) | OtherExpr

  /** A call record (`find_function_calls`). */
  datatype CallRecord =
    | DirectCall(name: string, args: nat, keywords: nat)
    | AttributeCall(objectName: string, name: string, args: nat, keywords: nat)

  /** The names of an attribute chain from its root: the root's name when it is a plain
      name, then each attribute. */
  function Chain(e: Expr): seq<string>
  {
    match e
    case Name(id) => [id]
    case Attribute(value, attr) => Chain(value) + [attr]
    case OtherExpr => []
  }

  /** The chain written with dots. */
  function Dotted(e: Expr): string
  {
    Join(Chain(e), ".")
  }

  function Reversed(xs: seq<string>): (r: seq<string>)
    ensures |r| == |xs|
  {
    if xs == [] then [] else Reversed(xs[1..]) + [xs[0]]
  }

  lemma {:induction false} ReversedSnoc(xs: seq<string>, x: string)
    ensures Reversed(xs + [x]) == [x] + Reversed(xs)
  {
    if xs != [] {
      assert (xs + [x])[1..] == xs[1..] + [x];
      ReversedSnoc(xs[1..], x);
    } else {
      assert Reversed([x]) == Reversed([]) + [x];
    }
  }

  /** `_get_attribute_source`: walks down the chain collecting attributes, adds the root
      when it is a name, and joins the collected names in reverse with dots. */
  method GetAttributeSource(node: Expr) returns (r: string)
    ensures r == Dotted(node)
  {
    var parts: seq<string> := [];
    var current := node;
    while current.Attribute?
      invariant Chain(current) + Reversed(parts) == Chain(node)
      decreases current
    {
      ReversedSnoc(parts, current.attr);
      assert Chain(current) == Chain(current.value) + [current.attr];
      parts := parts + [current.attr];
      current := current.value;
    }
    if current.Name? {
      ReversedSnoc(parts, current.id);
      assert Chain(current) == [current.id];
      parts := parts + [current.id];
      assert Reversed(parts) == Chain(node);
    } else {
      assert Chain(current) == [];
      assert [] + Reversed(parts) == Reversed(parts);
    }
    r := Join(Reversed(parts), ".");
  }

  /** A dotted source read back at its dots gives the chain, when no name holds a dot. */
  lemma DottedSplit(e: Expr)
    requires Chain(e) != []
    requires forall i :: 0 <= i < |Chain(e)| ==> '.' !in Chain(e)[i]
    ensures Split(Dotted(e), '.') == Chain(e)
  {
    JoinSplit(Chain(e), '.');
  }

  /** The record `find_function_calls` makes for a call of `func`, as written: the object
      of an attribute call is the dotted source of the whole callee, attribute included. */
  function CallOfAsWritten(func: Expr, args: nat, keywords: nat): (r: Option<CallRecord>)
    ensures func.Name? ==> r == Some(DirectCall(func.id, args, keywords))
    ensures func.Attribute? ==> r.Some? && r.value.AttributeCall? && r.value.name == func.attr
    ensures func.OtherExpr? ==> r.None?
  {
    match func
    case Name(id) => Some(DirectCall(id, args, keywords))
    case Attribute(value, attr) => Some(AttributeCall(Dotted(func), attr, args, keywords))
    case OtherExpr => None
  }

  /** The record with the object an attribute call is made on: the dotted source of the
      callee's receiver. */
  function CallOf(func: Expr, args: nat, keywords: nat): (r: Option<CallRecord>)
    ensures func.Name? ==> r == Some(DirectCall(func.id, args, keywords))
    ensures func.Attribute? ==> r.Some? && r.value.AttributeCall? && r.value.name == func.attr
    ensures func.OtherExpr? ==> r.None?
  {
    match func
    case Name(id) => Some(DirectCall(id, args, keywords))
    case Attribute(value, attr) => Some(AttributeCall(Dotted(value), attr, args, keywords))
    case OtherExpr => None
  }

  /** The text a blacklist pattern is looked for in: the import's name, or
      `module.name` for a from-import (a missing module shows as "None"). */
  function ImportTarget(imp: ImportRecord): string
  {
    match imp
    case PlainImport(name, _) => name
    case FromImport(moduleName, name, _) => (if moduleName.Some? then moduleName.value else "None") + "." + name
  }

  /** The text a blacklist pattern is looked for in: the called name, or `object.name`. */
  function CallTarget(call: CallRecord): string
  {
    match call
    case DirectCall(name, _, _) => name
    case AttributeCall(objectName, name, _, _) => objectName + "." + name
  }

  lemma JoinSnoc(xs: seq<string>, x: string, sep: string)
    requires xs != []
    ensures Join(xs + [x], sep) == Join(xs, sep) + sep + x
    decreases |xs|
  {
    if |xs| > 1 {
      assert (xs + [x])[1..] == xs[1..] + [x];
      JoinSnoc(xs[1..], x, sep);
    } else {
      assert (xs + [x])[1..] == [x];
    }
  }

  /** As written, the call `os.system(cmd)` is recorded with object "os.system", so the
      blacklist looks at, and reports, "os.system.system". */
  lemma CallTargetAsWritten()
    ensures CallOfAsWritten(Attribute(Name("os"), "system"), 1, 0) == Some(AttributeCall("os.system", "system", 1, 0))
    ensures CallTarget(CallOfAsWritten(Attribute(Name("os"), "system"), 1, 0).value) == "os.system.system"
  {
    assert Chain(Attribute(Name("os"), "system")) == ["os", "system"];
    assert ["os", "system"][1..] == ["system"];
    assert Join(["system"], ".") == "system";
    assert Join(["os", "system"], ".") == "os" + "." + "system" == "os.system";
  }

  /** With the receiver as the object, the blacklist looks at the callee exactly as it is
      written in the source file. */
  lemma CallTargetDotted(func: Expr, args: nat, keywords: nat)
    requires func.Attribute? && Chain(func.value) != []
    ensures CallTarget(CallOf(func, args, keywords).value) == Dotted(func)
  {
    JoinSnoc(Chain(func.value), func.attr, ".");
  }

  /** One entry of the `BLACKLIST` rule. */
  datatype Banned = Banned(pattern: string, reason: string)

  /** A blacklist entry is a mapping with a string `pattern` and a `reason` of any kind,
      which the report shows as `str()` does. */
  function BanOf(v: Value, show: Value -> string): (r: Result<Banned, string>)
    ensures r.Ok? <==> v.VDict? && Get(v.entries, "pattern").Some? && Get(v.entries, "pattern").value.VStr?
                       && Get(v.entries, "reason").Some?
    ensures r.Ok? ==> Get(v.entries, "pattern") == Some(VStr(r.value.pattern))
                      && r.value.reason == Str(Get(v.entries, "reason").value, show)
  {
    if !v.VDict? then Err("blacklist entry: string indices must be integers")
    else
      match Get(v.entries, "pattern")
      case None => Err("KeyError: 'pattern'")
      case Some(p) =>
        if !p.VStr? then Err("'in <string>' requires string as left operand")
        else
          match Get(v.entries, "reason")
          case None => Err("KeyError: 'reason'")
          case Some(reason) => Ok(Banned(p.s, Str(reason, show)))
  }

  /** The entries of the blacklist, each read as `BanOf` does. */
  function BansOf(items: seq<Value>, show: Value -> string): (r: Result<seq<Banned>, string>)
    ensures r.Ok? ==> |r.value| == |items|
  {
    AllOk(items, v => BanOf(v, show))
  }

  /** Each entry read is the one its item gives. */
  lemma BansOfAt(items: seq<Value>, show: Value -> string, i: nat)
    requires BansOf(items, show).Ok? && i < |items|
    ensures BanOf(items[i], show) == Ok(BansOf(items, show).value[i])
  {
    AllOkAt(items, v => BanOf(v, show), i);
  }

  /** Reading the list fails exactly when one of its items cannot be read. */
  lemma BansOfErr(items: seq<Value>, show: Value -> string)
    ensures BansOf(items, show).Err? <==> exists i :: 0 <= i < |items| && BanOf(items[i], show).Err?
  {
    AllOkErr(items, v => BanOf(v, show));
  }

  /** The `BLACKLIST` rule: none when the key is absent; a list of entries; iterating an
      empty mapping or string gives nothing, and any other value cannot be read. */
  function Blacklist(rules: Dict<Value>, show: Value -> string): (r: Result<seq<Banned>, string>)
    ensures Get(rules, "BLACKLIST").None? ==> r == Ok([])
  {
    match Get(rules, "BLACKLIST")
    case None => Ok([])
    case Some(v) =>
      match v
      case VList(items) => BansOf(items, show)
      case VDict(entries) => if entries == [] then Ok([]) else Err("string indices must be integers")
      case VStr(s) => if s == [] then Ok([]) else Err("string indices must be integers")
      case _ => Err("object is not iterable")
  }

  /** The texts the blacklist looks at for the imports, in record order. */
  function ImportTargets(imports: seq<ImportRecord>): (r: seq<string>)
    ensures |r| == |imports|
  {
    if imports == [] then [] else [ImportTarget(imports[0])] + ImportTargets(imports[1..])
  }

  /** The texts the blacklist looks at for the calls, in record order. */
  function CallTargets(calls: seq<CallRecord>): (r: seq<string>)
    ensures |r| == |calls|
  {
    if calls == [] then [] else [CallTarget(calls[0])] + CallTargets(calls[1..])
  }

  /** The report of a pattern found in a target. */
  function Report(ban: Banned, kind: string, target: string): string
  {
    kind + target + " (" + ban.reason + ")"
  }

  /** What one target adds: a report when the pattern occurs in it. */
  function Hit(ban: Banned, kind: string, target: string): seq<string>
  {
    if Contains(target, ban.pattern) then [Report(ban, kind, target)] else []
  }

  /** The reports of one entry over a list of targets, in order. */
  function Reports(ban: Banned, kind: string, targets: seq<string>): seq<string>
  {
    if targets == [] then [] else Hit(ban, kind, targets[0]) + Reports(ban, kind, targets[1..])
  }

  const ImportKind := "Blacklisted import: "
  const CallKind := "Blacklisted call: "

  /** All violations: entry by entry, the imports' and then the calls'. */
  function Violations(bans: seq<Banned>, imports: seq<ImportRecord>, calls: seq<CallRecord>): seq<string>
  {
    if bans == [] then []
    else Reports(bans[0], ImportKind, ImportTargets(imports)) + Reports(bans[0], CallKind, CallTargets(calls))
         + Violations(bans[1..], imports, calls)
  }

  /** What `_check_blacklist` returns, or why it fails. */
  function BlacklistViolations(rules: Dict<Value>, imports: seq<ImportRecord>, calls: seq<CallRecord>, show: Value -> string): (r: Result<seq<string>, string>)
    ensures Get(rules, "BLACKLIST").None? ==> r == Ok([])
  {
    match Blacklist(rules, show)
    case Err(e) => Err(e)
    case Ok(bans) => Ok(Violations(bans, imports, calls))
  }

  /** Every target the entry's pattern occurs in is reported, nothing else is, and there
      is one report per such target. */
  lemma {:induction false} ReportsExact(ban: Banned, kind: string, targets: seq<string>)
    ensures forall j :: 0 <= j < |targets| && Contains(targets[j], ban.pattern) ==> Report(ban, kind, targets[j]) in Reports(ban, kind, targets)
    ensures forall v :: v in Reports(ban, kind, targets) ==>
              exists j :: 0 <= j < |targets| && Contains(targets[j], ban.pattern) && v == Report(ban, kind, targets[j])
    ensures Reports(ban, kind, targets) == [] <==> forall j :: 0 <= j < |targets| ==> !Contains(targets[j], ban.pattern)
    decreases |targets|
  {
    if targets != [] {
      var rest := targets[1..];
      ReportsExact(ban, kind, rest);
      assert forall j :: 1 <= j < |targets| ==> targets[j] == rest[j - 1];
      forall v | v in Reports(ban, kind, targets)
        ensures exists j :: 0 <= j < |targets| && Contains(targets[j], ban.pattern) && v == Report(ban, kind, targets[j])
      {
        if v !in Reports(ban, kind, rest) {
          assert v in Hit(ban, kind, targets[0]);
        } else {
          var j :| 0 <= j < |rest| && Contains(rest[j], ban.pattern) && v == Report(ban, kind, rest[j]);
          assert rest[j] == targets[j + 1];
        }
      }
    }
  }

  /** An empty pattern occurs in every text: it reports each record once. */
  lemma {:induction false} EmptyPatternCount(reason: string, kind: string, targets: seq<string>)
    ensures |Reports(Banned("", reason), kind, targets)| == |targets|
    decreases |targets|
  {
    if targets != [] {
      assert Contains(targets[0], "");
      EmptyPatternCount(reason, kind, targets[1..]);
    }
  }

  /** No violation at all exactly when no entry reports anything. */
  lemma {:induction false} ViolationsEmpty(bans: seq<Banned>, imports: seq<ImportRecord>, calls: seq<CallRecord>)
    ensures Violations(bans, imports, calls) == [] <==>
            forall i :: 0 <= i < |bans| ==> Reports(bans[i], ImportKind, ImportTargets(imports)) == [] && Reports(bans[i], CallKind, CallTargets(calls)) == []
    decreases |bans|
  {
    if bans != [] {
      ViolationsEmpty(bans[1..], imports, calls);
      assert forall i :: 1 <= i < |bans| ==> bans[i] == bans[1..][i - 1];
    }
  }

  /** Reading on from position `j` of the targets. */
  lemma ReportsStep(ban: Banned, kind: string, targets: seq<string>, j: nat, hits: seq<string>)
    requires j < |targets|
    ensures hits + Reports(ban, kind, targets[j..]) == (hits + Hit(ban, kind, targets[j])) + Reports(ban, kind, targets[j + 1..])
  {
    assert targets[j..][0] == targets[j] && targets[j..][1..] == targets[j + 1..];
  }

  lemma {:induction false} ImportTargetAt(imports: seq<ImportRecord>, j: nat)
    requires j < |imports|
    ensures ImportTargets(imports)[j] == ImportTarget(imports[j])
    decreases j
  {
    if j > 0 {
      ImportTargetAt(imports[1..], j - 1);
    }
  }

  lemma {:induction false} CallTargetAt(calls: seq<CallRecord>, j: nat)
    requires j < |calls|
    ensures CallTargets(calls)[j] == CallTarget(calls[j])
    decreases j
  {
    if j > 0 {
      CallTargetAt(calls[1..], j - 1);
    }
  }

  /** The loop of `_check_blacklist` over the imports, for one entry. */
  method CheckImports(ban: Banned, imports: seq<ImportRecord>) returns (hits: seq<string>)
    ensures hits == Reports(ban, ImportKind, ImportTargets(imports))
  {
    ghost var targets := ImportTargets(imports);
    hits := [];
    for j := 0 to |imports|
      invariant hits + Reports(ban, ImportKind, targets[j..]) == Reports(ban, ImportKind, targets)
    {
      ReportsStep(ban, ImportKind, targets, j, hits);
      ImportTargetAt(imports, j);
      var target := ImportTarget(imports[j]);
      if Contains(target, ban.pattern) {
        hits := hits + [Report(ban, ImportKind, target)];
      }
    }
    assert targets[|imports|..] == [];
  }

  /** The loop of `_check_blacklist` over the calls, for one entry. */
  method CheckCalls(ban: Banned, calls: seq<CallRecord>) returns (hits: seq<string>)
    ensures hits == Reports(ban, CallKind, CallTargets(calls))
  {
    ghost var targets := CallTargets(calls);
    hits := [];
    for j := 0 to |calls|
      invariant hits + Reports(ban, CallKind, targets[j..]) == Reports(ban, CallKind, targets)
    {
      ReportsStep(ban, CallKind, targets, j, hits);
      CallTargetAt(calls, j);
      var target := CallTarget(calls[j]);
      if Contains(target, ban.pattern) {
        hits := hits + [Report(ban, CallKind, target)];
      }
    }
    assert targets[|calls|..] == [];
  }

  lemma ViolationsStep(bans: seq<Banned>, imports: seq<ImportRecord>, calls: seq<CallRecord>, i: nat, acc: seq<string>)
    requires i < |bans|
    ensures acc + Violations(bans[i..], imports, calls) ==
            (acc + (Reports(bans[i], ImportKind, ImportTargets(imports)) + Reports(bans[i], CallKind, CallTargets(calls))))
            + Violations(bans[i + 1..], imports, calls)
  {
    assert bans[i..][0] == bans[i] && bans[i..][1..] == bans[i + 1..];
  }

  /** `_check_blacklist` */
  method CheckBlacklist(rules: Dict<Value>, imports: seq<ImportRecord>, calls: seq<CallRecord>, show: Value -> string) returns (r: Result<seq<string>, string>)
    ensures r == BlacklistViolations(rules, imports, calls, show)
  {
    var blacklist := Blacklist(rules, show);
    if blacklist.Err? {
      return Err(blacklist.error);
    }
    var bans := blacklist.value;
    var violations: seq<string> := [];
    for i := 0 to |bans|
      invariant violations + Violations(bans[i..], imports, calls) == Violations(bans, imports, calls)
    {
      ViolationsStep(bans, imports, calls, i, violations);
      var fromImports := CheckImports(bans[i], imports);
      var fromCalls := CheckCalls(bans[i], calls);
      violations := violations + (fromImports + fromCalls);
    }
    assert bans[|bans|..] == [];
    assert violations + [] == violations;
    return Ok(violations);
  }

  /** What `'pattern' in pattern` and `pattern['pattern'].strip()` make of one value of
      the `REQUIRED_PATTERNS` mapping: a mapping gives its `pattern` text, if it has one; a
      string or list without "pattern" in it is skipped; anything else cannot be read. */
  function PatternOf(v: Value): (r: Result<Option<string>, string>)
    ensures r.Ok? && r.value.Some? <==> v.VDict? && Get(v.entries, "pattern").Some? && Get(v.entries, "pattern").value.VStr?
    ensures r.Ok? && r.value.Some? ==> Get(v.entries, "pattern") == Some(VStr(r.value.value))
    ensures v.VDict? && Get(v.entries, "pattern").None? ==> r == Ok(None)
  {
    match v
    case VDict(d) =>
      (match Get(d, "pattern")
       case None => Ok(None)
       case Some(p) => if p.VStr? then Ok(Some(p.s)) else Err("object has no attribute 'strip'"))
    case VStr(s) => if Contains(s, "pattern") then Err("string indices must be integers") else Ok(None)
    case VList(items) => if VStr("pattern") in items then Err("list indices must be integers or slices, not str") else Ok(None)
    case _ => Err("argument of type is not iterable")
  }

  /** A plain `import m` of the module. */
  predicate Imported(imports: seq<ImportRecord>, m: string)
  {
    exists i :: 0 <= i < |imports| && imports[i].PlainImport? && imports[i].name == m
  }

  /** A `from m import n` of the name. */
  predicate FromImported(imports: seq<ImportRecord>, m: string, n: string)
  {
    exists i :: 0 <= i < |imports| && imports[i].FromImport? && imports[i].moduleName == Some(m) && imports[i].name == n
  }

  function MissingReport(line: string): string
  {
    "Missing required import: " + line
  }

  /** A non-empty string that `strip()` leaves as it is. */
  predicate Trimmed(s: string)
  {
    s != [] && !IsSpace(s[0]) && !IsSpace(s[|s| - 1])
  }

  /** Names a `from` line can list: each one its own strip, without a comma. */
  predicate PlainNames(ns: seq<string>)
  {
    forall i :: 0 <= i < |ns| ==> Trimmed(ns[i]) && ',' !in ns[i]
  }

  /** A line that starts with a word and a space splits into that word and the pieces of
      the rest. */
  lemma SplitAfterWord(w: string, rest: string)
    requires ' ' !in w
    ensures Split(w + " " + rest, ' ') == [w] + Split(rest, ' ')
  {
    assert w + " " + rest == w + [' '] + rest;
    SplitWhereCut(w, rest, ' ');
  }

  /** `import m` lines: the module is the second space-separated piece, and is missing
      when there is no plain import of it. */
  function ImportMissing(l: string, imports: seq<ImportRecord>): seq<string>
    requires StartsWith(l, "import ")
  {
    assert l == "import" + " " + l[7..] by {
      assert l[..7] == "import ";
    }
    SplitAfterWord("import", l[7..]);
    var m := Split(l, ' ')[1];
    if Imported(imports, m) then [] else [MissingReport(l)]
  }

  /** One report per name, in order, for each name (stripped) with no matching from-import. */
  function NamesMissing(m: string, names: seq<string>, imports: seq<ImportRecord>, line: string): (r: seq<string>)
    ensures |r| <= |names|
    ensures forall i :: 0 <= i < |r| ==> r[i] == MissingReport(line)
  {
    if names == [] then []
    else NameReport(imports, m, Strip(names[0]), line) + NamesMissing(m, names[1..], imports, line)
  }

  /** What one name of a `from` line adds to the report. */
  function NameReport(imports: seq<ImportRecord>, m: string, name: string, line: string): (r: seq<string>)
    ensures r == [] <==> FromImported(imports, m, name)
    ensures r != [] ==> r == [MissingReport(line)]
  {
    if FromImported(imports, m, name) then [] else [MissingReport(line)]
  }

  /** How the names of a `from m import ...` line are read: as written, from the fourth
      space-separated piece alone, or, as evidently intended, from everything after
      `import`. */
  datatype FromReading = AsWritten | EveryName

  /** The names of a `from m import ...` line, cut at commas. */
  function FromNames(parts: seq<string>, reading: FromReading): seq<string>
    requires |parts| >= 4
  {
    match reading
    case AsWritten => Split(parts[3], ',')
    case EveryName => Split(Join(parts[3..], " "), ',')
  }

  /** `from m import ...` lines; a line with fewer than four pieces fails. */
  function FromMissing(l: string, imports: seq<ImportRecord>, reading: FromReading): (r: Result<seq<string>, string>)
    ensures r.Err? <==> |Split(l, ' ')| < 4
  {
    var parts := Split(l, ' ');
    if |parts| < 4 then Err("list index out of range")
    else Ok(NamesMissing(parts[1], FromNames(parts, reading), imports, l))
  }

  /** What one line of a required pattern reports, once stripped. */
  function LineMissing(line: string, imports: seq<ImportRecord>, reading: FromReading): Result<seq<string>, string>
  {
    var l := Strip(line);
    if StartsWith(l, "import ") then Ok(ImportMissing(l, imports))
    else if StartsWith(l, "from ") then FromMissing(l, imports, reading)
    else Ok([])
  }

  /** `acc` followed by a result's reports; a failure stays a failure. */
  function Prefixed(acc: seq<string>, r: Result<seq<string>, string>): Result<seq<string>, string>
  {
    match r
    case Err(e) => Err(e)
    case Ok(rest) => Ok(acc + rest)
  }

  /** The reports of the lines, in order; the first failing line fails them all. */
  function LinesMissing(lines: seq<string>, imports: seq<ImportRecord>, reading: FromReading): Result<seq<string>, string>
  {
    if lines == [] then Ok([])
    else
      match LineMissing(lines[0], imports, reading)
      case Err(e) => Err(e)
      case Ok(first) => Prefixed(first, LinesMissing(lines[1..], imports, reading))
  }

  /** The lines of a required pattern's text. */
  function PatternLines(text: string): seq<string>
  {
    Split(Strip(text), '\n')
  }

  /** The reports of one `REQUIRED_PATTERNS` value: those of its pattern's lines, or none
      when it has no pattern. */
  function EntryMissing(v: Value, imports: seq<ImportRecord>, reading: FromReading): Result<seq<string>, string>
  {
    match PatternOf(v)
    case Err(e) => Err(e)
    case Ok(p) => if p.None? then Ok([]) else LinesMissing(PatternLines(p.value), imports, reading)
  }

  /** The reports of the `REQUIRED_PATTERNS` entries, in order; the first entry or line
      that cannot be read fails them all. */
  function EntriesMissing(entries: Dict<Value>, imports: seq<ImportRecord>, reading: FromReading): Result<seq<string>, string>
  {
    if entries == [] then Ok([])
    else
      match EntryMissing(entries[0].1, imports, reading)
      case Err(e) => Err(e)
      case Ok(first) => Prefixed(first, EntriesMissing(entries[1..], imports, reading))
  }

  /** What `_check_required` returns, or why it fails: nothing when the rule is absent;
      otherwise the rule must be a mapping. */
  function RequiredMissing(rules: Dict<Value>, imports: seq<ImportRecord>, reading: FromReading): (r: Result<seq<string>, string>)
    ensures Get(rules, "REQUIRED_PATTERNS").None? ==> r == Ok([])
  {
    match Get(rules, "REQUIRED_PATTERNS")
    case None => Ok([])
    case Some(v) => if v.VDict? then EntriesMissing(v.entries, imports, reading) else Err("object has no attribute 'items'")
  }

  /** `acc` before `acc'` before a result is `acc + acc'` before it. */
  lemma PrefixedPrefixed(acc: seq<string>, more: seq<string>, r: Result<seq<string>, string>)
    ensures Prefixed(acc, Prefixed(more, r)) == Prefixed(acc + more, r)
  {
    if r.Ok? {
      assert acc + (more + r.value) == acc + more + r.value;
    }
  }

  lemma NamesStep(m: string, names: seq<string>, imports: seq<ImportRecord>, line: string, k: nat, acc: seq<string>)
    requires k < |names|
    ensures acc + NamesMissing(m, names[k..], imports, line) ==
            (acc + NameReport(imports, m, Strip(names[k]), line)) + NamesMissing(m, names[k + 1..], imports, line)
  {
    var head := NameReport(imports, m, Strip(names[k]), line);
    var tail := NamesMissing(m, names[k + 1..], imports, line);
    assert NamesMissing(m, names[k..], imports, line) == head + tail by {
      assert names[k..][0] == names[k] && names[k..][1..] == names[k + 1..];
    }
    assert acc + (head + tail) == (acc + head) + tail;
  }

  /** One line of a required pattern (the body of the inner loop of `_check_required`). */
  method CheckLine(line: string, imports: seq<ImportRecord>) returns (r: Result<seq<string>, string>)
    ensures r == LineMissing(line, imports, AsWritten)
  {
    var l := Strip(line);
    if StartsWith(l, "import ") {
      r := Ok(ImportMissing(l, imports));
    } else if StartsWith(l, "from ") {
      r := CheckFromLine(l, imports);
    } else {
      r := Ok([]);
    }
  }

  /** A stripped `from` line: the module is the second piece and the names are the fourth
      piece cut at commas. */
  method CheckFromLine(l: string, imports: seq<ImportRecord>) returns (r: Result<seq<string>, string>)
    ensures r == FromMissing(l, imports, AsWritten)
  {
    var parts := Split(l, ' ');
    if |parts| < 4 {
      return Err("list index out of range");
    }
    var names := CheckNames(parts[1], Split(parts[3], ','), imports, l);
    return Ok(names);
  }

  /** The loop over the names of a `from` line. */
  method CheckNames(m: string, names: seq<string>, imports: seq<ImportRecord>, l: string) returns (missing: seq<string>)
    ensures missing == NamesMissing(m, names, imports, l)
  {
    missing := [];
    assert missing + NamesMissing(m, names, imports, l) == NamesMissing(m, names, imports, l);
    for k := 0 to |names|
      invariant missing + NamesMissing(m, names[k..], imports, l) == NamesMissing(m, names, imports, l)
    {
      var name := Strip(names[k]);
      var found: seq<string> := if FromImported(imports, m, name) then [] else [MissingReport(l)];
      assert found == NameReport(imports, m, name, l);
      NamesStep(m, names, imports, l, k, missing);
      missing := missing + found;
    }
    assert names[|names|..] == [];
    assert missing + [] == missing;
  }

  lemma PrefixedEmpty(r: Result<seq<string>, string>)
    ensures Prefixed([], r) == r
  {
    if r.Ok? {
      assert [] + r.value == r.value;
    }
  }

  lemma LinesStep(lines: seq<string>, imports: seq<ImportRecord>, reading: FromReading, j: nat, acc: seq<string>)
    requires j < |lines|
    ensures Prefixed(acc, LinesMissing(lines[j..], imports, reading)) ==
            match LineMissing(lines[j], imports, reading)
            case Err(e) => Err(e)
            case Ok(a) => Prefixed(acc + a, LinesMissing(lines[j + 1..], imports, reading))
  {
    assert lines[j..][0] == lines[j] && lines[j..][1..] == lines[j + 1..];
    match LineMissing(lines[j], imports, reading)
    case Err(e) =>
    case Ok(a) => PrefixedPrefixed(acc, a, LinesMissing(lines[j + 1..], imports, reading));
  }

  /** The lines of one required pattern. */
  method CheckPattern(text: string, imports: seq<ImportRecord>) returns (r: Result<seq<string>, string>)
    ensures r == LinesMissing(PatternLines(text), imports, AsWritten)
  {
    r := CheckLines(PatternLines(text), imports);
  }

  /** The loop over the lines of a required pattern, in order. */
  method CheckLines(lines: seq<string>, imports: seq<ImportRecord>) returns (r: Result<seq<string>, string>)
    ensures r == LinesMissing(lines, imports, AsWritten)
  {
    var missing: seq<string> := [];
    PrefixedEmpty(LinesMissing(lines, imports, AsWritten));
    for j := 0 to |lines|
      invariant Prefixed(missing, LinesMissing(lines[j..], imports, AsWritten)) == LinesMissing(lines, imports, AsWritten)
    {
      LinesStep(lines, imports, AsWritten, j, missing);
      var found := CheckLine(lines[j], imports);
      match found
      case Err(e) =>
        return Err(e);
      case Ok(a) =>
        missing := missing + a;
    }
    assert lines[|lines|..] == [];
    assert missing + [] == missing;
    return Ok(missing);
  }

  lemma EntriesStep(entries: Dict<Value>, imports: seq<ImportRecord>, reading: FromReading, i: nat, acc: seq<string>)
    requires i < |entries|
    ensures Prefixed(acc, EntriesMissing(entries[i..], imports, reading)) ==
            match EntryMissing(entries[i].1, imports, reading)
            case Err(e) => Err(e)
            case Ok(a) => Prefixed(acc + a, EntriesMissing(entries[i + 1..], imports, reading))
  {
    assert entries[i..][0] == entries[i] && entries[i..][1..] == entries[i + 1..];
    match EntryMissing(entries[i].1, imports, reading)
    case Err(e) =>
    case Ok(a) => PrefixedPrefixed(acc, a, EntriesMissing(entries[i + 1..], imports, reading));
  }

  /** One value of the `REQUIRED_PATTERNS` mapping (the body of the outer loop of
      `_check_required`). */
  method CheckEntry(v: Value, imports: seq<ImportRecord>) returns (r: Result<seq<string>, string>)
    ensures r == EntryMissing(v, imports, AsWritten)
  {
    var pattern := PatternOf(v);
    match pattern
    case Err(e) =>
      return Err(e);
    case Ok(p) =>
      if p.None? {
        return Ok([]);
      }
      r := CheckPattern(p.value, imports);
  }

  /** `_check_required` */
  method CheckRequired(rules: Dict<Value>, imports: seq<ImportRecord>) returns (r: Result<seq<string>, string>)
    ensures r == RequiredMissing(rules, imports, AsWritten)
  {
    var required := Get(rules, "REQUIRED_PATTERNS");
    if required.None? {
      return Ok([]);
    }
    if !required.value.VDict? {
      return Err("object has no attribute 'items'");
    }
    var entries := required.value.entries;
    var missing: seq<string> := [];
    PrefixedEmpty(EntriesMissing(entries, imports, AsWritten));
    for i := 0 to |entries|
      invariant Prefixed(missing, EntriesMissing(entries[i..], imports, AsWritten)) == EntriesMissing(entries, imports, AsWritten)
    {
      EntriesStep(entries, imports, AsWritten, i, missing);
      var found := CheckEntry(entries[i].1, imports);
      match found
      case Err(e) =>
        return Err(e);
      case Ok(a) =>
        missing := missing + a;
    }
    assert entries[|entries|..] == [];
    assert missing + [] == missing;
    return Ok(missing);
  }

  /** The line `import m` is its own strip. */
  lemma ImportLineStrip(m: string)
    requires m != [] && !IsSpace(m[|m| - 1])
    ensures Strip("import " + m) == "import " + m
  {
    var l := "import " + m;
    assert l[0] == 'i' && l[|l| - 1] == m[|m| - 1];
    StripStripped(l);
  }

  lemma ImportLineStarts(m: string)
    ensures StartsWith("import " + m, "import ") && !StartsWith("import " + m, "from ")
  {
    var l := "import " + m;
    assert l[..7] == "import ";
    assert l[0] != "from "[0];
  }

  /** The pieces of `import m` are "import" and `m`. */
  lemma ImportLineSplit(m: string)
    requires ' ' !in m
    ensures Split("import " + m, ' ') == ["import", m]
  {
    assert "import" + " " + m == "import " + m;
    SplitAfterWord("import", m);
    SplitWhereNone(m, x => x == ' ');
    assert Split(m, ' ') == [m];
  }

  /** A required `import m` line is reported once exactly when `m` is not imported. */
  lemma ImportLineMissing(m: string, imports: seq<ImportRecord>, reading: FromReading)
    requires m != [] && ' ' !in m && !IsSpace(m[|m| - 1])
    ensures LineMissing("import " + m, imports, reading) == Ok(if Imported(imports, m) then [] else [MissingReport("import " + m)])
  {
    var l := "import " + m;
    ImportLineStrip(m);
    ImportLineStarts(m);
    LineMissingImport(l, imports, reading);
    ImportMissingOf(m, imports);
  }

  /** A stripped `import ` line is read by `ImportMissing`. */
  lemma LineMissingImport(l: string, imports: seq<ImportRecord>, reading: FromReading)
    requires Strip(l) == l && StartsWith(l, "import ")
    ensures LineMissing(l, imports, reading) == Ok(ImportMissing(l, imports))
  {
  }

  lemma ImportMissingOf(m: string, imports: seq<ImportRecord>)
    requires ' ' !in m
    ensures ImportMissing("import " + m, imports) == if Imported(imports, m) then [] else [MissingReport("import " + m)]
  {
    ImportLineSplit(m);
  }

  /** A stripped `from ` line is read by `FromMissing`. */
  lemma LineMissingFrom(l: string, imports: seq<ImportRecord>, reading: FromReading)
    requires Strip(l) == l && StartsWith(l, "from ") && !StartsWith(l, "import ")
    ensures LineMissing(l, imports, reading) == FromMissing(l, imports, reading)
  {
  }

  /** A required `from m import a, b, ...` line as an author writes it. */
  function FromLine(m: string, ns: seq<string>): string
  {
    "from " + m + " import " + Join(ns, ", ")
  }

  /** The pieces of `Join(ns, ", ")` cut at commas: `ns[0]`, then each further name after
      the space that follows its comma. */
  function Spaced(ns: seq<string>): (r: seq<string>)
    requires ns != []
    ensures |r| == |ns| && r[0] == ns[0]
    ensures forall i :: 1 <= i < |ns| ==> r[i] == " " + ns[i]
  {
    [ns[0]] + SpacedTail(ns[1..])
  }

  function SpacedTail(ns: seq<string>): (r: seq<string>)
    ensures |r| == |ns|
    ensures forall i :: 0 <= i < |ns| ==> r[i] == " " + ns[i]
  {
    if ns == [] then [] else [" " + ns[0]] + SpacedTail(ns[1..])
  }

  lemma JoinHead(y: string, x: string, rest: seq<string>, sep: string)
    ensures Join([y + x] + rest, sep) == y + Join([x] + rest, sep)
  {
    if rest != [] {
      assert ([y + x] + rest)[1..] == rest;
      assert ([x] + rest)[1..] == rest;
    }
  }

  /** Joining with ", " is joining the spaced names with ",". */
  lemma {:induction false} CommaJoin(ns: seq<string>)
    requires ns != []
    ensures Join(ns, ", ") == Join(Spaced(ns), ",")
    decreases |ns|
  {
    if |ns| > 1 {
      var t := ns[1..];
      CommaJoin(t);
      assert t[1..] == ns[2..];
      JoinHead(" ", t[0], SpacedTail(t[1..]), ",");
      assert SpacedTail(t) == [" " + t[0]] + SpacedTail(t[1..]);
      assert Spaced(ns)[1..] == SpacedTail(t);
    }
  }

  /** A join of pieces whose last piece is not empty ends with that piece's last character. */
  lemma {:induction false} JoinLast(parts: seq<string>, sep: string)
    requires parts != [] && parts[|parts| - 1] != []
    ensures var j := Join(parts, sep); j != [] && j[|j| - 1] == parts[|parts| - 1][|parts[|parts| - 1]| - 1]
    decreases |parts|
  {
    if |parts| > 1 {
      JoinLast(parts[1..], sep);
    }
  }

  /** Names that strip to the same names report the same. */
  lemma {:induction false} NamesMissingStrip(m: string, a: seq<string>, b: seq<string>, imports: seq<ImportRecord>, line: string)
    requires |a| == |b|
    requires forall i :: 0 <= i < |a| ==> Strip(a[i]) == Strip(b[i])
    ensures NamesMissing(m, a, imports, line) == NamesMissing(m, b, imports, line)
    decreases |a|
  {
    if a != [] {
      NamesMissingStrip(m, a[1..], b[1..], imports, line);
    }
  }

  /** Nothing is reported exactly when every name is imported from the module. */
  lemma {:induction false} NamesMissingNone(m: string, names: seq<string>, imports: seq<ImportRecord>, line: string)
    ensures NamesMissing(m, names, imports, line) == [] <==>
            forall i :: 0 <= i < |names| ==> FromImported(imports, m, Strip(names[i]))
    decreases |names|
  {
    if names != [] {
      var rest := names[1..];
      NamesMissingNone(m, rest, imports, line);
      if NamesMissing(m, names, imports, line) == [] {
        forall i | 0 <= i < |names|
          ensures FromImported(imports, m, Strip(names[i]))
        {
          if i > 0 {
            assert names[i] == rest[i - 1];
          }
        }
      }
      if forall i :: 0 <= i < |names| ==> FromImported(imports, m, Strip(names[i])) {
        forall j | 0 <= j < |rest|
          ensures FromImported(imports, m, Strip(rest[j]))
        {
          assert rest[j] == names[j + 1];
        }
      }
    }
  }

  lemma TrimmedNamesMissingNone(m: string, ns: seq<string>, imports: seq<ImportRecord>, line: string)
    requires forall i :: 0 <= i < |ns| ==> Trimmed(ns[i])
    ensures NamesMissing(m, ns, imports, line) == [] <==> forall i :: 0 <= i < |ns| ==> FromImported(imports, m, ns[i])
  {
    NamesMissingNone(m, ns, imports, line);
    forall i | 0 <= i < |ns|
      ensures Strip(ns[i]) == ns[i]
    {
      StripStripped(ns[i]);
    }
  }

  /** The pieces of a `from m import a, b, ...` line, cut at spaces. */
  lemma FromLinePieces(m: string, ns: seq<string>)
    requires ' ' !in m
    ensures Split(FromLine(m, ns), ' ') == ["from", m, "import"] + Split(Join(ns, ", "), ' ')
  {
    var j := Join(ns, ", ");
    assert FromLine(m, ns) == "from" + " " + (m + " " + ("import" + " " + j));
    assert (["from", m, "import"] + Split(j, ' ')) == ["from"] + ([m] + (["import"] + Split(j, ' ')));
    SplitAfterWord("import", j);
    SplitAfterWord(m, "import" + " " + j);
    SplitAfterWord("from", m + " " + ("import" + " " + j));
  }

  /** The line `from m import a, b, ...` is its own strip. */
  lemma FromLineStrip(m: string, ns: seq<string>)
    requires ns != [] && Trimmed(ns[|ns| - 1])
    ensures Strip(FromLine(m, ns)) == FromLine(m, ns)
  {
    var l := FromLine(m, ns);
    var j := Join(ns, ", ");
    JoinLast(ns, ", ");
    assert l == "from " + m + " import " + j;
    assert l[0] == 'f' && l[|l| - 1] == j[|j| - 1];
    StripStripped(l);
  }

  lemma FromLineStarts(m: string, ns: seq<string>)
    ensures StartsWith(FromLine(m, ns), "from ") && !StartsWith(FromLine(m, ns), "import ")
  {
    var l := FromLine(m, ns);
    assert l == "from " + (m + " import " + Join(ns, ", "));
    assert l[..5] == "from ";
    assert l[0] != "import "[0];
  }

  /** The names that `FromNames` reads back, every name after `import`, from a `from m import a, b, ...` line are the
      spaced names. */
  lemma FromLineNames(m: string, ns: seq<string>)
    requires ' ' !in m && ns != []
    requires forall i :: 0 <= i < |ns| ==> ',' !in ns[i]
    ensures |Split(FromLine(m, ns), ' ')| >= 4
    ensures Split(FromLine(m, ns), ' ')[1] == m
    ensures FromNames(Split(FromLine(m, ns), ' '), EveryName) == Spaced(ns)
  {
    var j := Join(ns, ", ");
    FromLinePieces(m, ns);
    var parts := Split(FromLine(m, ns), ' ');
    assert parts[3..] == Split(j, ' ');
    SplitJoin(j, ' ');
    CommaJoin(ns);
    var sp := Spaced(ns);
    forall i | 0 <= i < |sp|
      ensures ',' !in sp[i]
    {
      if i > 0 {
        assert sp[i] == " " + ns[i];
      }
    }
    JoinSplit(sp, ',');
  }

  /** The spaced names strip to the names. */
  lemma SpacedStrip(ns: seq<string>)
    requires ns != []
    requires forall i :: 0 <= i < |ns| ==> Trimmed(ns[i])
    ensures forall i :: 0 <= i < |ns| ==> Strip(Spaced(ns)[i]) == Strip(ns[i]) == ns[i]
  {
    var sp := Spaced(ns);
    forall i | 0 <= i < |ns|
      ensures Strip(sp[i]) == Strip(ns[i]) == ns[i]
    {
      StripStripped(ns[i]);
      if i > 0 {
        StripPadLeft(ns[i]);
      }
    }
  }

  /** Reading every name, a required `from m import a, b, ...` line, written with ", "
      between the names, reports the line once for each name that is not imported from `m`. */
  lemma FromLineMissing(m: string, ns: seq<string>, imports: seq<ImportRecord>)
    requires ' ' !in m && ns != []
    requires PlainNames(ns)
    ensures LineMissing(FromLine(m, ns), imports, EveryName) == Ok(NamesMissing(m, ns, imports, FromLine(m, ns)))
  {
    var l := FromLine(m, ns);
    FromLineStrip(m, ns);
    FromLineStarts(m, ns);
    LineMissingFrom(l, imports, EveryName);
    FromMissingOf(m, ns, imports);
  }

  /** Reading every name, such a line reports nothing exactly when every name on it is
      imported from `m`. */
  lemma FromLineComplete(m: string, ns: seq<string>, imports: seq<ImportRecord>)
    requires ' ' !in m && ns != []
    requires PlainNames(ns)
    ensures LineMissing(FromLine(m, ns), imports, EveryName) == Ok([]) <==>
            forall i :: 0 <= i < |ns| ==> FromImported(imports, m, ns[i])
  {
    FromLineMissing(m, ns, imports);
    TrimmedNamesMissingNone(m, ns, imports, FromLine(m, ns));
  }

  lemma FromMissingOf(m: string, ns: seq<string>, imports: seq<ImportRecord>)
    requires ' ' !in m && ns != []
    requires PlainNames(ns)
    ensures FromMissing(FromLine(m, ns), imports, EveryName) == Ok(NamesMissing(m, ns, imports, FromLine(m, ns)))
  {
    var l := FromLine(m, ns);
    FromLineNames(m, ns);
    SpacedStrip(ns);
    NamesMissingStrip(m, Spaced(ns), ns, imports, l);
  }

  /** The imports of a file that does import both `a` and `b` from `m`. */
  const BothImported: seq<ImportRecord> := [FromImport(Some("m"), "a", None), FromImport(Some("m"), "b", None)]

  lemma TwoNamesPieces()
    ensures Split(FromLine("m", ["a", "b"]), ' ') == ["from", "m", "import", "a,", "b"]
  {
    assert Join(["a", "b"], ", ") == "a," + " " + "b";
    FromLinePieces("m", ["a", "b"]);
    SplitAfterWord("a,", "b");
    SplitWhereNone("b", x => x == ' ');
    assert Split("b", ' ') == ["b"];
  }

  /** A name followed by a comma cuts into the name and an empty piece. */
  lemma TrailingCommaPieces(n: string)
    requires ',' !in n
    ensures Split(n + ",", ',') == [n, ""]
  {
    assert n + "," == n + [','] + "";
    SplitWhereCut(n, "", ',');
    SplitWhereNone("", x => x == ',');
    assert Split("", ',') == [""];
  }

  /** As written, the names of `from m import a, b` are read from the fourth space-separated
      piece only, "a,", so `b` is never looked up and the empty name after the comma is
      reported missing although both names are imported. */
  lemma FromLineAsWritten()
    ensures FromMissing(FromLine("m", ["a", "b"]), BothImported, AsWritten) == Ok([MissingReport(FromLine("m", ["a", "b"]))])
  {
    var l := FromLine("m", ["a", "b"]);
    TwoNamesPieces();
    TrailingCommaPieces("a");
    assert FromNames(Split(l, ' '), AsWritten) == ["a", ""];
    EmptyNameMissing(l);
  }

  /** "a" is imported from `m`, the empty name is not. */
  lemma EmptyNameMissing(line: string)
    ensures NamesMissing("m", ["a", ""], BothImported, line) == [MissingReport(line)]
  {
    StripStripped("a");
    assert FromImported(BothImported, "m", Strip("a")) by {
      assert BothImported[0].name == "a";
    }
    assert !FromImported(BothImported, "m", Strip(""));
    SecondMissing("m", ["a", ""], BothImported, line);
  }

  /** Two names of which only the first is imported report one missing name. */
  lemma SecondMissing(m: string, names: seq<string>, imports: seq<ImportRecord>, line: string)
    requires |names| == 2 && FromImported(imports, m, Strip(names[0])) && !FromImported(imports, m, Strip(names[1]))
    ensures NamesMissing(m, names, imports, line) == [MissingReport(line)]
  {
    assert names[1..][0] == names[1] && names[1..][1..] == [];
    assert NamesMissing(m, names[1..], imports, line) == [MissingReport(line)];
  }

  /** Reading every name after `import`, the same line reports nothing. */
  lemma FromLineCorrected()
    ensures FromMissing(FromLine("m", ["a", "b"]), BothImported, EveryName) == Ok([])
  {
    BothNamesImported();
    assert PlainNames(["a", "b"]);
    AllImportedNoneMissing("m", ["a", "b"], BothImported);
  }

  lemma BothNamesImported()
    ensures forall i :: 0 <= i < |["a", "b"]| ==> FromImported(BothImported, "m", ["a", "b"][i])
  {
    assert BothImported[0].name == "a" && BothImported[1].name == "b";
    assert FromImported(BothImported, "m", "a");
    assert FromImported(BothImported, "m", "b");
  }

  /** A from-import line all of whose names are imported from its module reports nothing. */
  lemma AllImportedNoneMissing(m: string, ns: seq<string>, imports: seq<ImportRecord>)
    requires ' ' !in m && ns != [] && PlainNames(ns)
    requires forall i :: 0 <= i < |ns| ==> FromImported(imports, m, ns[i])
    ensures FromMissing(FromLine(m, ns), imports, EveryName) == Ok([])
  {
    FromMissingOf(m, ns, imports);
    TrimmedNamesMissingNone(m, ns, imports, FromLine(m, ns));
  }

  /** The two readings differ only where the names after `import` hold a space: a line
      with exactly four space-separated pieces is read alike. */
  lemma ReadingsAgree(l: string, imports: seq<ImportRecord>)
    requires |Split(l, ' ')| == 4
    ensures FromMissing(l, imports, AsWritten) == FromMissing(l, imports, EveryName)
  {
    var parts := Split(l, ' ');
    assert parts[3..] == [parts[3]];
  }

  /** Import records name something: the syntax tree never holds an empty name. */
  predicate NamedImports(imports: seq<ImportRecord>)
  {
    forall i :: 0 <= i < |imports| ==> imports[i].name != []
  }

  /** As written, a required `from m import a, b, ...` line with two or more names reads
      the first name and the empty piece after its comma, and no other name: the line is
      reported whatever the file imports, and reported twice when the first name is not
      imported either. */
  lemma FromLineAsWrittenReported(m: string, ns: seq<string>, imports: seq<ImportRecord>)
    requires ' ' !in m && |ns| >= 2 && PlainNames(ns) && ' ' !in ns[0]
    requires NamedImports(imports)
    ensures LineMissing(FromLine(m, ns), imports, AsWritten) ==
            Ok(NameReport(imports, m, ns[0], FromLine(m, ns)) + [MissingReport(FromLine(m, ns))])
  {
    var l := FromLine(m, ns);
    FromLineStrip(m, ns);
    FromLineStarts(m, ns);
    LineMissingFrom(l, imports, AsWritten);
    AsWrittenFromMissing(m, ns, imports);
  }

  lemma AsWrittenFromMissing(m: string, ns: seq<string>, imports: seq<ImportRecord>)
    requires ' ' !in m && |ns| >= 2 && ',' !in ns[0] && ' ' !in ns[0] && Trimmed(ns[0])
    requires NamedImports(imports)
    ensures FromMissing(FromLine(m, ns), imports, AsWritten) ==
            Ok(NameReport(imports, m, ns[0], FromLine(m, ns)) + [MissingReport(FromLine(m, ns))])
  {
    var l := FromLine(m, ns);
    AsWrittenNames(m, ns);
    StripStripped(ns[0]);
    SecondName(m, ns[0], imports, l);
  }

  /** The pieces that the as-written reading takes for names. */
  lemma AsWrittenNames(m: string, ns: seq<string>)
    requires ' ' !in m && |ns| >= 2 && ',' !in ns[0] && ' ' !in ns[0]
    ensures |Split(FromLine(m, ns), ' ')| >= 4 && Split(FromLine(m, ns), ' ')[1] == m
    ensures FromNames(Split(FromLine(m, ns), ' '), AsWritten) == [ns[0], ""]
  {
    var rest := Join(ns[1..], ", ");
    assert Join(ns, ", ") == (ns[0] + ",") + " " + rest;
    FromLinePieces(m, ns);
    SplitAfterWord(ns[0] + ",", rest);
    TrailingCommaPieces(ns[0]);
  }

  /** The names `n` and "" report what `n` reports, then the line. */
  lemma SecondName(m: string, n: string, imports: seq<ImportRecord>, line: string)
    requires Strip(n) == n && NamedImports(imports)
    ensures NamesMissing(m, [n, ""], imports, line) == NameReport(imports, m, n, line) + [MissingReport(line)]
  {
    assert Strip("") == "";
    assert !FromImported(imports, m, "");
    var last := NamesMissing(m, [""], imports, line);
    assert last == NameReport(imports, m, Strip(""), line) + NamesMissing(m, [], imports, line) by {
      assert [""][1..] == [];
    }
    assert last == [MissingReport(line)];
    assert [n, ""][0] == n && [n, ""][1..] == [""];
  }

  /** What the syntax-tree analyser gives for a file: its import and call records. */
  datatype Parsed = Parsed(imports: seq<ImportRecord>, calls: seq<CallRecord>)

  /** The error `validate_file` raises for any failure inside it. */
  function Failed(filePath: string, e: string): PatternEnforcerError
  {
    NewValidation("Validation failed for " + filePath + ": " + e, None)
  }

  /** `validate_file`: the blacklist first; only when it finds nothing, the required
      imports; valid when neither finds anything. `parsed` is the analyser's outcome for
      the file, a failure when the file cannot be read or parsed; `show` is `str()` of a
      non-string blacklist reason; `reading` says how `from` lines are read. */
  function Validation(filePath: string, rules: Dict<Value>, parsed: Result<Parsed, string>, show: Value -> string, reading: FromReading): (r: Result<ValidationResult, PatternEnforcerError>)
    ensures parsed.Err? ==> r == Err(Failed(filePath, parsed.error))
    ensures r.Ok? && Truthy(r.value) <==>
            parsed.Ok? && BlacklistViolations(rules, parsed.value.imports, parsed.value.calls, show) == Ok([])
            && RequiredMissing(rules, parsed.value.imports, reading) == Ok([])
    ensures r.Ok? ==> (r.value.valid <==> r.value.violations.None?)
    ensures r.Ok? && r.value.violations.Some? ==> r.value.violations.value != []
    ensures parsed.Ok? && BlacklistViolations(rules, parsed.value.imports, parsed.value.calls, show).Ok?
            && BlacklistViolations(rules, parsed.value.imports, parsed.value.calls, show).value != [] ==>
            r == Ok(ValidationResult(false, Some(BlacklistViolations(rules, parsed.value.imports, parsed.value.calls, show).value), Some(["Blacklisted patterns found"])))
    ensures parsed.Ok? && BlacklistViolations(rules, parsed.value.imports, parsed.value.calls, show) == Ok([])
            && RequiredMissing(rules, parsed.value.imports, reading).Ok? && RequiredMissing(rules, parsed.value.imports, reading).value != [] ==>
            r == Ok(ValidationResult(false, Some(RequiredMissing(rules, parsed.value.imports, reading).value), Some(["Missing required patterns"])))
    ensures r.Err? ==> r.error.ValidationError? && r.error.validationErrors == []
  {
    match parsed
    case Err(e) => Err(Failed(filePath, e))
    case Ok(Parsed(imports, calls)) =>
      match BlacklistViolations(rules, imports, calls, show)
      case Err(e) => Err(Failed(filePath, e))
      case Ok(violations) =>
        if violations != [] then Ok(ValidationResult(false, Some(violations), Some(["Blacklisted patterns found"])))
        else
          match RequiredMissing(rules, imports, reading)
          case Err(e) => Err(Failed(filePath, e))
          case Ok(missing) =>
            if missing != [] then Ok(ValidationResult(false, Some(missing), Some(["Missing required patterns"])))
            else Ok(ValidationResult(true, None, Some(["All patterns validated"])))
  }

  /** `validate_file`, reading `from` lines as written. */
  method ValidateFile(filePath: string, rules: Dict<Value>, parsed: Result<Parsed, string>, show: Value -> string) returns (r: Result<ValidationResult, PatternEnforcerError>)
    ensures r == Validation(filePath, rules, parsed, show, AsWritten)
  {
    if parsed.Err? {
      return Err(Failed(filePath, parsed.error));
    }
    var imports := parsed.value.imports;
    var calls := parsed.value.calls;
    var blacklisted := CheckBlacklist(rules, imports, calls, show);
    if blacklisted.Err? {
      return Err(Failed(filePath, blacklisted.error));
    }
    if blacklisted.value != [] {
      return Ok(ValidationResult(false, Some(blacklisted.value), Some(["Blacklisted patterns found"])));
    }
    var missing := CheckRequired(rules, imports);
    if missing.Err? {
      return Err(Failed(filePath, missing.error));
    }
    if missing.value != [] {
      return Ok(ValidationResult(false, Some(missing.value), Some(["Missing required patterns"])));
    }
    return Ok(ValidationResult(true, None, Some(["All patterns validated"])));
  }

  /** Rules requiring one pattern, named `name`, of a single line. */
  function RequiringLine(name: string, line: string): Dict<Value>
  {
    [("REQUIRED_PATTERNS", VDict([(name, VDict([("pattern", VStr(line))]))]))]
  }

  /** Such rules report what their line reports. */
  lemma RequiringLineMissing(name: string, line: string, imports: seq<ImportRecord>, reading: FromReading)
    requires Strip(line) == line && '\n' !in line
    ensures RequiredMissing(RequiringLine(name, line), imports, reading) == LineMissing(line, imports, reading)
  {
    var v := VDict([("pattern", VStr(line))]);
    EntryOfLine(line, imports, reading);
    OneEntryMissing(name, v, imports, reading);
    assert Get(RequiringLine(name, line), "REQUIRED_PATTERNS") == Some(VDict([(name, v)]));
  }

  /** A single entry reports what the entry reports. */
  lemma OneEntryMissing(name: string, v: Value, imports: seq<ImportRecord>, reading: FromReading)
    ensures EntriesMissing([(name, v)], imports, reading) == EntryMissing(v, imports, reading)
  {
    assert [(name, v)][1..] == [];
    OneItem(EntryMissing(v, imports, reading), EntriesMissing([], imports, reading));
  }

  /** An entry whose pattern is a single stripped line reports what the line reports. */
  lemma EntryOfLine(line: string, imports: seq<ImportRecord>, reading: FromReading)
    requires Strip(line) == line && '\n' !in line
    ensures EntryMissing(VDict([("pattern", VStr(line))]), imports, reading) == LineMissing(line, imports, reading)
  {
    var v := VDict([("pattern", VStr(line))]);
    assert Get([("pattern", VStr(line))], "pattern") == Some(VStr(line));
    assert PatternOf(v) == Ok(Some(line));
    OneLinePattern(line);
    assert EntryMissing(v, imports, reading) == LinesMissing([line], imports, reading);
    OneLineMissing(line, imports, reading);
  }

  /** A single line reports what the line reports. */
  lemma OneLineMissing(line: string, imports: seq<ImportRecord>, reading: FromReading)
    ensures LinesMissing([line], imports, reading) == LineMissing(line, imports, reading)
  {
    assert [line][1..] == [];
    OneItem(LineMissing(line, imports, reading), LinesMissing([], imports, reading));
  }

  /** A stripped text without a newline is a pattern of one line. */
  lemma OneLinePattern(line: string)
    requires Strip(line) == line && '\n' !in line
    ensures PatternLines(line) == [line]
  {
    forall k | 0 <= k < |line|
      ensures line[k] != '\n'
    {
    }
    SplitWhereNone(line, x => x == '\n');
  }

  /** A result followed by nothing is itself. */
  lemma OneItem(r: Result<seq<string>, string>, rest: Result<seq<string>, string>)
    requires rest == Ok([])
    ensures (match r case Err(e) => Err(e) case Ok(first) => Prefixed(first, rest)) == r
  {
    if r.Ok? {
      assert r.value + [] == r.value;
    }
  }

  /** The line `from m import a, b` is stripped, one line, and a `from` line. */
  lemma BothLine()
    ensures var l := FromLine("m", ["a", "b"]);
            Strip(l) == l && '\n' !in l && StartsWith(l, "from ") && !StartsWith(l, "import ")
  {
    assert PlainNames(["a", "b"]);
    FromLineStrip("m", ["a", "b"]);
    FromLineStarts("m", ["a", "b"]);
    BothLineOneLine();
  }

  lemma BothLineOneLine()
    ensures '\n' !in FromLine("m", ["a", "b"])
  {
    assert ["a", "b"][1..] == ["b"];
    assert Join(["a", "b"], ", ") == "a, b";
    assert FromLine("m", ["a", "b"]) == "from m import a, b";
  }

  /** What the requirement `from m import a, b` reports for a file importing both names. */
  lemma RequiringBoth()
    ensures RequiredMissing(RequiringLine("both", FromLine("m", ["a", "b"])), BothImported, AsWritten) == Ok([MissingReport(FromLine("m", ["a", "b"]))])
    ensures RequiredMissing(RequiringLine("both", FromLine("m", ["a", "b"])), BothImported, EveryName) == Ok([])
  {
    var l := FromLine("m", ["a", "b"]);
    BothLine();
    RequiringLineMissing("both", l, BothImported, AsWritten);
    RequiringLineMissing("both", l, BothImported, EveryName);
    LineMissingFrom(l, BothImported, AsWritten);
    LineMissingFrom(l, BothImported, EveryName);
    FromLineAsWritten();
    FromLineCorrected();
  }

  /** As written, `validate_file` rejects a file that imports both `a` and `b` from `m`
      against the requirement `from m import a, b`; read as intended, it accepts it. */
  lemma ValidationFromLine(show: Value -> string)
    ensures Validation("f.py", RequiringLine("both", FromLine("m", ["a", "b"])), Ok(Parsed(BothImported, [])), show, AsWritten)
            == Ok(ValidationResult(false, Some([MissingReport(FromLine("m", ["a", "b"]))]), Some(["Missing required patterns"])))
    ensures Validation("f.py", RequiringLine("both", FromLine("m", ["a", "b"])), Ok(Parsed(BothImported, [])), show, EveryName)
            == Ok(ValidationResult(true, None, Some(["All patterns validated"])))
  {
    assert Get(RequiringLine("both", FromLine("m", ["a", "b"])), "BLACKLIST").None?;
    RequiringBoth();
  }
}
