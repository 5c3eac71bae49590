/** The errors of the pattern enforcer (src/pattern_enforcer/errors.py). The three error
    classes share the base `PatternEnforcerError`, which here is one datatype with a
    variant per subclass; each variant keeps the text the exception is raised with and the
    attribute its constructor stores. */
module PatternErrors {
  import opened Wrappers
  import opened Text

  datatype PatternEnforcerError =
    | BlockedActionError(text: string, requiredAction: Option<string>)
    | PatternViolationError(text: string, violations: seq<string>)
    | ValidationError(text: string, validationErrors: seq<string>)

  /** The line of a required action. */
  function ActionLine(action: string): string
  {
    "Required action: " + action
  }

  /** `f"- {v}" for v in items` */
  function Bulleted(items: seq<string>): (r: seq<string>)
    ensures |r| == |items|
    ensures forall i :: 0 <= i < |items| ==> r[i] == "- " + items[i]
  {
    if items == [] then [] else ["- " + items[0]] + Bulleted(items[1..])
  }

  /** A message followed, when there are items, by a header line and one bulleted line
      per item. */
  function Listing(message: string, header: string, items: seq<string>): string
  {
    if items == [] then message else message + "\n" + header + "\n" + Join(Bulleted(items), "\n")
  }

  /** `items or []` */
  function OrEmpty(items: Option<seq<string>>): (r: seq<string>)
    ensures items.Some? ==> r == items.value
    ensures items.None? ==> r == []
  {
    if items.Some? then items.value else []
  }

  /** `BlockedActionError(message, required_action)`: the action is appended on a line of
      its own when it is given and not empty. */
  function NewBlockedAction(message: string, requiredAction: Option<string>): (r: PatternEnforcerError)
    ensures r.BlockedActionError? && r.requiredAction == requiredAction
    ensures StartsWith(r.text, message)
    ensures r.text == message <==> requiredAction.None? || requiredAction.value == ""
  {
    var text := if requiredAction.Some? && requiredAction.value != "" then message + "\n" + ActionLine(requiredAction.value) else message;
    assert text[..|message|] == message;
    BlockedActionError(text, requiredAction)
  }

  /** `PatternViolationError(message, violations)`: the violations (none when not given)
      are listed under a "Violations:" header when there are any. */
  function NewPatternViolation(message: string, violations: Option<seq<string>>): (r: PatternEnforcerError)
    ensures r.PatternViolationError? && r.violations == OrEmpty(violations)
    ensures r.text == Listing(message, "Violations:", r.violations)
    ensures StartsWith(r.text, message)
    ensures r.text == message <==> r.violations == []
  {
    var items := OrEmpty(violations);
    ListingPrefix(message, "Violations:", items);
    PatternViolationError(Listing(message, "Violations:", items), items)
  }

  /** `ValidationError(message, validation_errors)`: as `PatternViolationError`, under a
      "Validation errors:" header. */
  function NewValidation(message: string, validationErrors: Option<seq<string>>): (r: PatternEnforcerError)
    ensures r.ValidationError? && r.validationErrors == OrEmpty(validationErrors)
    ensures r.text == Listing(message, "Validation errors:", r.validationErrors)
    ensures StartsWith(r.text, message)
    ensures r.text == message <==> r.validationErrors == []
  {
    var items := OrEmpty(validationErrors);
    ListingPrefix(message, "Validation errors:", items);
    ValidationError(Listing(message, "Validation errors:", items), items)
  }

  /** A listing starts with its message and is longer than it exactly when it lists
      something. */
  lemma ListingPrefix(message: string, header: string, items: seq<string>)
    ensures StartsWith(Listing(message, header, items), message)
    ensures Listing(message, header, items) == message <==> items == []
  {
    var text := Listing(message, header, items);
    if items != [] {
      assert text == message + ("\n" + header + "\n" + Join(Bulleted(items), "\n"));
      assert text[..|message|] == message;
    }
  }

  /** Read line by line, a listing whose message, header and items are single lines is
      the message, then (when there are items) the header and one "- " line per item. */
  lemma ListingLines(message: string, header: string, items: seq<string>)
    requires '\n' !in message && '\n' !in header
    requires forall i :: 0 <= i < |items| ==> '\n' !in items[i]
    ensures Split(Listing(message, header, items), '\n') ==
            if items == [] then [message] else [message, header] + Bulleted(items)
  {
    if items == [] {
      JoinSplit([message], '\n');
    } else {
      var bullets := Bulleted(items);
      var lines := [message, header] + bullets;
      SingleLines(message, header, items);
      JoinSplit(lines, '\n');
      JoinLines(message, header, bullets);
    }
  }

  lemma SingleLines(message: string, header: string, items: seq<string>)
    requires '\n' !in message && '\n' !in header
    requires forall i :: 0 <= i < |items| ==> '\n' !in items[i]
    ensures forall i :: 0 <= i < |items| + 2 ==> '\n' !in ([message, header] + Bulleted(items))[i]
  {
    var bullets := Bulleted(items);
    var lines := [message, header] + bullets;
    forall i | 2 <= i < |lines|
      ensures '\n' !in lines[i]
    {
      assert lines[i] == bullets[i - 2] == "- " + items[i - 2];
    }
  }

  lemma JoinLines(message: string, header: string, bullets: seq<string>)
    requires bullets != []
    ensures Join([message, header] + bullets, "\n") == message + "\n" + header + "\n" + Join(bullets, "\n")
  {
    var lines := [message, header] + bullets;
    assert lines[1..] == [header] + bullets;
    assert lines[1..][1..] == bullets;
  }

  /** Read line by line, a blocked-action text is the message and, when an action is
      given, the "Required action:" line. */
  lemma BlockedActionLines(message: string, requiredAction: Option<string>)
    requires '\n' !in message
    requires requiredAction.Some? ==> '\n' !in requiredAction.value
    ensures Split(NewBlockedAction(message, requiredAction).text, '\n') ==
            if requiredAction.Some? && requiredAction.value != "" then [message, ActionLine(requiredAction.value)] else [message]
  {
    if requiredAction.Some? && requiredAction.value != "" {
      var lines := [message, ActionLine(requiredAction.value)];
      assert '\n' !in lines[1] by {
        assert lines[1] == "Required action: " + requiredAction.value;
      }
      JoinSplit(lines, '\n');
    } else {
      JoinSplit([message], '\n');
    }
  }
}
