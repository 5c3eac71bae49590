/** Order-keeping duplicate removal, the pattern the source writes as a list plus a `seen`
    set: an element is appended the first time it is met and skipped afterwards. */
module Seqs {

  /** No element occurs twice. */
  predicate Distinct<T(==)>(xs: seq<T>)
  {
    forall i, j :: 0 <= i < j < |xs| ==> xs[i] != xs[j]
  }

  /** `acc` followed by the elements of `xs` not met before, in first-seen order. */
  function DedupInto<T(==,!new)>(acc: seq<T>, xs: seq<T>): (r: seq<T>)
    ensures Distinct(acc) ==> Distinct(r)
    ensures forall x :: x in r <==> x in acc || x in xs
    ensures |acc| <= |r| && r[..|acc|] == acc
    decreases |xs|
  {
    if xs == [] then acc
    else if xs[0] in acc then DedupInto(acc, xs[1..])
    else DedupInto(acc + [xs[0]], xs[1..])
  }

  /** The elements of `xs` in first-seen order, each once. */
  function Dedup<T(==,!new)>(xs: seq<T>): (r: seq<T>)
    ensures Distinct(r)
    ensures forall x :: x in r <==> x in xs
  {
    DedupInto([], xs)
  }

  /** Reading `xs` and then `ys` is reading `xs + ys`. */
  lemma {:induction false} DedupIntoAppend<T(!new)>(acc: seq<T>, xs: seq<T>, ys: seq<T>)
    ensures DedupInto(acc, xs + ys) == DedupInto(DedupInto(acc, xs), ys)
    decreases |xs|
  {
    if xs == [] {
      assert xs + ys == ys;
    } else {
      assert (xs + ys)[0] == xs[0] && (xs + ys)[1..] == xs[1..] + ys;
      if xs[0] in acc {
        DedupIntoAppend(acc, xs[1..], ys);
      } else {
        DedupIntoAppend(acc + [xs[0]], xs[1..], ys);
      }
    }
  }

  /** Reading a list that holds nothing new adds nothing. */
  lemma {:induction false} DedupIntoSeen<T(!new)>(acc: seq<T>, xs: seq<T>)
    requires forall x :: x in xs ==> x in acc
    ensures DedupInto(acc, xs) == acc
    decreases |xs|
  {
    if xs != [] {
      DedupIntoSeen(acc, xs[1..]);
    }
  }

  /** Some element satisfies `P` exactly when the first one or one of the rest does. */
  lemma SomeShift<T>(xs: seq<T>, P: T -> bool)
    requires xs != []
    ensures (exists x :: x in xs && P(x)) <==> P(xs[0]) || exists x :: x in xs[1..] && P(x)
  {
    if exists x :: x in xs && P(x) {
      var x :| x in xs && P(x);
      if x != xs[0] {
        var i :| 0 <= i < |xs| && xs[i] == x;
        assert xs[1..][i - 1] == x;
      }
    }
    if exists x :: x in xs[1..] && P(x) {
      var x :| x in xs[1..] && P(x);
      assert x in xs;
    }
  }

  /** The same, by position. */
  lemma SomeAtShift<T>(xs: seq<T>, P: T -> bool)
    requires xs != []
    ensures (exists i :: 0 <= i < |xs| && P(xs[i])) <==> P(xs[0]) || exists i :: 0 <= i < |xs[1..]| && P(xs[1..][i])
  {
    if exists i :: 0 <= i < |xs[1..]| && P(xs[1..][i]) {
      var i :| 0 <= i < |xs[1..]| && P(xs[1..][i]);
      assert xs[1..][i] == xs[i + 1];
    }
    if exists i :: 0 <= i < |xs| && P(xs[i]) {
      var i :| 0 <= i < |xs| && P(xs[i]);
      if i > 0 {
        assert xs[1..][i - 1] == xs[i];
      }
    }
  }
}
