/** The pre-action enforcer (src/pattern_enforcer/enforcer.py): three flags that must be set,
    in a fixed order of checking, before a wrapped action may run, a fourth flag that
    records that the checks once passed, and a log of steps. The class keeps the source's
    fields; `EnforcerState` is their value, and the functions over it say what each method
    does to them. */
module Enforcer {
  import opened Wrappers
  import opened PatternErrors

  /** The three things the protocol requires, in the order the wrapper checks them. */
  datatype Requirement = FetchRules | CitePatterns | ShowValidation

  datatype EnforcerState = EnforcerState(
    validationComplete: bool,
    rulesFetched: bool,
    patternsCited: bool,
    validationShown: bool,
    steps: seq<string>)

  /** The state of a new (or reset) enforcer. */
  const Initial := EnforcerState(false, false, false, false, [])

  /** `is_ready()`: all three flags are set, whatever `validation_complete` says. */
  predicate Ready(s: EnforcerState)
  {
    s.rulesFetched && s.patternsCited && s.validationShown
  }

  /** Whether a requirement's flag is set. */
  predicate Met(s: EnforcerState, q: Requirement)
  {
    match q
    case FetchRules => s.rulesFetched
    case CitePatterns => s.patternsCited
    case ShowValidation => s.validationShown
  }

  /** The requirement a wrapped call is blocked on: none once the checks have passed,
      otherwise the first unset flag in the order rules, patterns, validation. */
  function Pending(s: EnforcerState): (r: Option<Requirement>)
    ensures r.None? <==> s.validationComplete || Ready(s)
    ensures r == Some(FetchRules) <==> !s.validationComplete && !s.rulesFetched
    ensures r == Some(CitePatterns) <==> !s.validationComplete && s.rulesFetched && !s.patternsCited
    ensures r == Some(ShowValidation) <==> !s.validationComplete && s.rulesFetched && s.patternsCited && !s.validationShown
    ensures r.Some? ==> !Met(s, r.value)
  {
    if s.validationComplete then None
    else if !s.rulesFetched then Some(FetchRules)
    else if !s.patternsCited then Some(CitePatterns)
    else if !s.validationShown then Some(ShowValidation)
    else None
  }

  /** The step logged when a call is blocked on `q`. */
  function BlockedStep(q: Requirement): string
  {
    match q
    case FetchRules => "Rules must be fetched first"
    case CitePatterns => "Patterns must be cited"
    case ShowValidation => "Validation must be shown"
  }

  /** The error a call blocked on `q` raises. */
  function BlockedError(q: Requirement): (r: PatternEnforcerError)
    ensures r.BlockedActionError? && r.requiredAction.Some?
  {
    match q
    case FetchRules => NewBlockedAction("MUST fetch rules before any action.", Some("fetch_rules(['rule_name'])"))
    case CitePatterns => NewBlockedAction("MUST cite patterns before any action.", Some("cite_patterns(rules)"))
    case ShowValidation => NewBlockedAction("MUST show validation before any action.", Some("show_validation(patterns)"))
  }

  /** The step logged when `q` is marked done. */
  function MarkedStep(q: Requirement): string
  {
    match q
    case FetchRules => "✓ Rules fetched"
    case CitePatterns => "✓ Patterns cited"
    case ShowValidation => "✓ Validation shown"
  }

  /** What a call of a wrapped action does to the state: when blocked it only logs the
      blocking step; otherwise it records that the checks passed. */
  function Attempt(s: EnforcerState): (r: EnforcerState)
    ensures Pending(s).Some? ==> r == s.(steps := s.steps + [BlockedStep(Pending(s).value)])
    ensures Pending(s).None? ==> r == s.(validationComplete := true)
  {
    match Pending(s)
    case Some(q) => s.(steps := s.steps + [BlockedStep(q)])
    case None => s.(validationComplete := true)
  }

  /** What `mark_rules_fetched`, `mark_patterns_cited` and `mark_validation_shown` do: set
      the flag and log the step. */
  function Mark(s: EnforcerState, q: Requirement): (r: EnforcerState)
    ensures Met(r, q) && r.steps == s.steps + [MarkedStep(q)]
    ensures r.validationComplete == s.validationComplete
    ensures forall p :: p != q ==> Met(r, p) == Met(s, p)
  {
    match q
    case FetchRules => s.(rulesFetched := true, steps := s.steps + [MarkedStep(q)])
    case CitePatterns => s.(patternsCited := true, steps := s.steps + [MarkedStep(q)])
    case ShowValidation => s.(validationShown := true, steps := s.steps + [MarkedStep(q)])
  }

  /** The operations of the enforcer, for reasoning about sequences of them. */
  datatype Operation = Call | MarkDone(q: Requirement) | ResetAll

  function Step(s: EnforcerState, op: Operation): EnforcerState
  {
    match op
    case Call => Attempt(s)
    case MarkDone(q) => Mark(s, q)
    case ResetAll => Initial
  }

  /** The state after a sequence of operations. */
  function Run(s: EnforcerState, ops: seq<Operation>): EnforcerState
    decreases |ops|
  {
    if ops == [] then s else Run(Step(s, ops[0]), ops[1..])
  }

  /** The checks have passed only if all three flags are set. */
  predicate Consistent(s: EnforcerState)
  {
    s.validationComplete ==> Ready(s)
  }

  /** Every operation keeps `Consistent`: no call proceeds before all three steps have
      been marked since the last reset. */
  lemma {:induction false} RunConsistent(s: EnforcerState, ops: seq<Operation>)
    requires Consistent(s)
    ensures Consistent(Run(s, ops))
    decreases |ops|
  {
    if ops != [] {
      RunConsistent(Step(s, ops[0]), ops[1..]);
    }
  }

  /** A blocked call changes no flag and logs exactly one step, so a call never proceeds
      until a flag is marked. */
  lemma BlockedUnchanged(s: EnforcerState)
    requires Pending(s).Some?
    ensures Pending(Attempt(s)) == Pending(s)
    ensures |Attempt(s).steps| == |s.steps| + 1
  {
  }

  /** Marking the three steps, in any order, lets the next call proceed, and every call
      after it as long as there is no reset. */
  lemma {:induction false} MarkedThenProceeds(s: EnforcerState, a: Requirement, b: Requirement, c: Requirement, ops: seq<Operation>)
    requires a != b && b != c && a != c
    requires ResetAll !in ops
    ensures var t := Attempt(Mark(Mark(Mark(s, a), b), c));
            Pending(Mark(Mark(Mark(s, a), b), c)).None? && t.validationComplete && Pending(Run(t, ops)).None?
  {
    var m := Mark(Mark(Mark(s, a), b), c);
    assert Met(m, FetchRules) && Met(m, CitePatterns) && Met(m, ShowValidation);
    CompleteStays(Attempt(m), ops);
  }

  /** Once the checks have passed, no operation other than a reset undoes it. */
  lemma {:induction false} CompleteStays(s: EnforcerState, ops: seq<Operation>)
    requires s.validationComplete && ResetAll !in ops
    ensures Run(s, ops).validationComplete
    decreases |ops|
  {
    if ops != [] {
      assert ResetAll !in ops[1..];
      CompleteStays(Step(s, ops[0]), ops[1..]);
    }
  }

  /** From a fresh enforcer, a call proceeds only after every requirement has been marked. */
  lemma {:induction false} FreshNeedsAllMarks(ops: seq<Operation>)
    requires Pending(Run(Initial, ops)).None?
    ensures forall q :: MarkDone(q) in ops
  {
    RunMarks(Initial, ops);
  }

  lemma {:induction false} RunMarks(s: EnforcerState, ops: seq<Operation>)
    requires Consistent(s)
    ensures forall q :: Met(Run(s, ops), q) ==> Met(s, q) || MarkDone(q) in ops
    ensures Consistent(Run(s, ops))
    decreases |ops|
  {
    if ops != [] {
      var t := Step(s, ops[0]);
      RunMarks(t, ops[1..]);
      forall q | Met(Run(s, ops), q)
        ensures Met(s, q) || MarkDone(q) in ops
      {
        assert Run(s, ops) == Run(t, ops[1..]);
        if !Met(t, q) {
          assert MarkDone(q) in ops[1..];
        } else if ops[0] != MarkDone(q) {
          assert Met(s, q);
        }
      }
    }
  }

  /** The enforcer object. */
  class PreActionEnforcer {
    var validationComplete: bool
    var rulesFetched: bool
    var patternsCited: bool
    var validationShown: bool
    var validationSteps: seq<string>

    /** The fields as one value. */
    function State(): EnforcerState
      reads this
    {
      EnforcerState(validationComplete, rulesFetched, patternsCited, validationShown, validationSteps)
    }

    /** `__init__`: every flag unset and no steps. */
    constructor()
      ensures State() == Initial
    {
      validationComplete := false;
      rulesFetched := false;
      patternsCited := false;
      validationShown := false;
      validationSteps := [];
    }

    /** A call of an action wrapped by the enforcer (`__call__`'s `wrapper`): the action
        `f` runs only when no requirement is pending; otherwise the call fails with the
        blocking error and `f` is not run. */
    method Invoke<T>(f: () -> T) returns (r: Result<T, PatternEnforcerError>)
      modifies this
      ensures State() == Attempt(old(State()))
      ensures Pending(old(State())).None? ==> r == Ok(f())
      ensures Pending(old(State())).Some? ==> r == Err(BlockedError(Pending(old(State())).value))
    {
      if !validationComplete {
        if !rulesFetched {
          validationSteps := validationSteps + [BlockedStep(FetchRules)];
          return Err(BlockedError(FetchRules));
        }
        if !patternsCited {
          validationSteps := validationSteps + [BlockedStep(CitePatterns)];
          return Err(BlockedError(CitePatterns));
        }
        if !validationShown {
          validationSteps := validationSteps + [BlockedStep(ShowValidation)];
          return Err(BlockedError(ShowValidation));
        }
        validationComplete := true;
      }
      return Ok(f());
    }

    /** `mark_rules_fetched` */
    method MarkRulesFetched()
      modifies this
      ensures State() == Mark(old(State()), FetchRules)
    {
      rulesFetched := true;
      validationSteps := validationSteps + [MarkedStep(FetchRules)];
    }

    /** `mark_patterns_cited` */
    method MarkPatternsCited()
      modifies this
      ensures State() == Mark(old(State()), CitePatterns)
    {
      patternsCited := true;
      validationSteps := validationSteps + [MarkedStep(CitePatterns)];
    }

    /** `mark_validation_shown` */
    method MarkValidationShown()
      modifies this
      ensures State() == Mark(old(State()), ShowValidation)
    {
      validationShown := true;
      validationSteps := validationSteps + [MarkedStep(ShowValidation)];
    }

    /** `reset`: back to the initial state. */
    method Reset()
      modifies this
      ensures State() == Initial
    {
      validationComplete := false;
      rulesFetched := false;
      patternsCited := false;
      validationShown := false;
      validationSteps := [];
    }

    /** `get_validation_steps`: the log, as a value the caller cannot use to change the
        enforcer. */
    method GetValidationSteps() returns (r: seq<string>)
      ensures r == validationSteps
    {
      r := validationSteps;
    }

    /** `is_ready` */
    method IsReady() returns (r: bool)
      ensures r <==> Ready(State())
    {
      r := rulesFetched && patternsCited && validationShown;
    }
  }
}
