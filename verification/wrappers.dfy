/** Failure-compatible wrappers used across the model: Python's `Optional[...]` and
    the exceptions the source raises become `Option` and `Result` values. */
module Wrappers {

  datatype Option<+T> = None | Some(value: T)

  datatype Result<+T, +E> = Ok(value: T) | Err(error: E) {
    predicate IsFailure() { Err? }

    function PropagateFailure<U>(): Result<U, E>
      requires Err?
    {
      Err(error)
    }

    function Extract(): T
      requires Ok?
    {
      value
    }
  }

  /** Each item through `f`, in order, failing with the first failure: a list
      comprehension whose element expression can raise. */
  function AllOk<T, U, E>(items: seq<T>, f: T -> Result<U, E>): (r: Result<seq<U>, E>)
    ensures r.Ok? ==> |r.value| == |items|
  {
    if items == [] then Ok([])
    else
      match f(items[0])
      case Err(e) => Err(e)
      case Ok(first) =>
        match AllOk(items[1..], f)
        case Err(e) => Err(e)
        case Ok(rest) => Ok([first] + rest)
  }

  /** The i-th result is what `f` makes of the i-th item. */
  lemma {:induction false} AllOkAt<T, U, E>(items: seq<T>, f: T -> Result<U, E>, i: nat)
    requires AllOk(items, f).Ok? && i < |items|
    ensures f(items[i]) == Ok(AllOk(items, f).value[i])
    decreases i
  {
    if i > 0 {
      AllOkAt(items[1..], f, i - 1);
      assert items[1..][i - 1] == items[i];
    }
  }

  /** The whole fails exactly when `f` fails on some item. */
  lemma {:induction false} AllOkErr<T, U, E>(items: seq<T>, f: T -> Result<U, E>)
    ensures AllOk(items, f).Err? <==> exists i :: 0 <= i < |items| && f(items[i]).Err?
    decreases |items|
  {
    if items != [] {
      AllOkErr(items[1..], f);
      if exists i :: 0 <= i < |items[1..]| && f(items[1..][i]).Err? {
        var i :| 0 <= i < |items[1..]| && f(items[1..][i]).Err?;
        assert items[1..][i] == items[i + 1];
      }
      if exists i :: 0 < i < |items| && f(items[i]).Err? {
        var i :| 0 < i < |items| && f(items[i]).Err?;
        assert items[1..][i - 1] == items[i];
      }
    }
  }
}
