/** Python dictionaries keep their keys in first-insertion order, and the source relies on
    that order (sections, categories and sub-specifications are reported in the order they
    were first seen). A `Dict` is that structure written out: a list of key/value pairs. */
module Dicts {
  import opened Wrappers
  import opened Seqs

  type Dict<V> = seq<(string, V)>

  /** The keys, in insertion order (Python's `list(d.keys())`). */
  function Keys<V>(d: Dict<V>): (ks: seq<string>)
    ensures |ks| == |d|
    ensures forall i :: 0 <= i < |d| ==> ks[i] == d[i].0
  {
    if d == [] then [] else [d[0].0] + Keys(d[1..])
  }

  /** No key occurs twice: every Python dict satisfies this. */
  predicate UniqueKeys<V>(d: Dict<V>)
  {
    forall i, j :: 0 <= i < j < |d| ==> d[i].0 != d[j].0
  }

  /** `d.get(k)`: the value stored under `k`, if any. */
  function Get<V>(d: Dict<V>, k: string): (r: Option<V>)
    ensures r.Some? <==> k in Keys(d)
    ensures r.Some? ==> (k, r.value) in d
  {
    if d == [] then None
    else if d[0].0 == k then Some(d[0].1)
    else Get(d[1..], k)
  }

  /** `d[k] = v`: an existing key keeps its position and takes the new value; a new key is
      appended at the end. */
  function Put<V>(d: Dict<V>, k: string, v: V): (r: Dict<V>)
    ensures Keys(r) == if k in Keys(d) then Keys(d) else Keys(d) + [k]
    ensures forall k' {:trigger Get(r, k')} :: Get(r, k') == if k' == k then Some(v) else Get(d, k')
    ensures UniqueKeys(d) ==> UniqueKeys(r)
  {
    if d == [] then [(k, v)]
    else if d[0].0 == k then [(k, v)] + d[1..]
    else
      var rest := Put(d[1..], k, v);
      assert Keys(d) == [d[0].0] + Keys(d[1..]);
      assert Keys([d[0]] + rest) == [d[0].0] + Keys(rest);
      [d[0]] + rest
  }

  /** `d.update(e)`: every entry of `e`, in order, is put into `d`. */
  function Update<V>(d: Dict<V>, e: Dict<V>): (r: Dict<V>)
    ensures UniqueKeys(d) ==> UniqueKeys(r)
    decreases |e|
  {
    if e == [] then d else Update(Put(d, e[0].0, e[0].1), e[1..])
  }

  /** After `d.update(e)`, a key of `e` holds its value in `e`; any other key keeps its
      value in `d`. */
  lemma {:induction false} UpdateGet<V>(d: Dict<V>, e: Dict<V>, k: string)
    requires UniqueKeys(e)
    ensures Get(Update(d, e), k) == if k in Keys(e) then Get(e, k) else Get(d, k)
    decreases |e|
  {
    if e != [] {
      var tail := e[1..];
      assert Keys(e) == [e[0].0] + Keys(tail);
      assert UniqueKeys(tail);
      UpdateGet(Put(d, e[0].0, e[0].1), tail, k);
    }
  }

  /** The first entry with key `k` is the one `Get` finds. */
  lemma {:induction false} GetAt<V>(d: Dict<V>, k: string, i: nat)
    requires i < |d| && d[i].0 == k
    requires forall j :: 0 <= j < i ==> d[j].0 != k
    ensures Get(d, k) == Some(d[i].1)
    decreases i
  {
    if i > 0 {
      GetAt(d[1..], k, i - 1);
    }
  }

  /** A key no entry has is not found. */
  lemma GetMissing<V>(d: Dict<V>, k: string)
    requires forall j :: 0 <= j < |d| ==> d[j].0 != k
    ensures Get(d, k) == None
  {
  }

  /** In a dict without repeated keys, `Get` finds exactly the stored entries. */
  lemma GetIn<V>(d: Dict<V>, k: string, v: V)
    requires UniqueKeys(d)
    ensures Get(d, k) == Some(v) <==> (k, v) in d
  {
    if (k, v) in d {
      var i :| 0 <= i < |d| && d[i] == (k, v);
      assert k in Keys(d) by { assert Keys(d)[i] == k; }
      var w := Get(d, k).value;
      var j :| 0 <= j < |d| && d[j] == (k, w);
      assert i == j;
    }
  }

  /** `d.get(k, default)` */
  function GetOr<V>(d: Dict<V>, k: string, default: V): (r: V)
    ensures k in Keys(d) ==> Some(r) == Get(d, k)
    ensures k !in Keys(d) ==> r == default
  {
    match Get(d, k)
    case Some(v) => v
    case None => default
  }

  /** Putting twice under one key is putting the second value. */
  lemma {:induction false} PutPut<V>(d: Dict<V>, k: string, v: V, w: V)
    ensures Put(Put(d, k, v), k, w) == Put(d, k, w)
  {
    if d != [] && d[0].0 != k {
      PutPut(d[1..], k, v, w);
    }
  }

  /** `d.setdefault(k, []).append(v)`, as the source writes it with an `if k not in d`. */
  function Append<V>(d: Dict<seq<V>>, k: string, v: V): Dict<seq<V>>
  {
    Put(d, k, GetOr(d, k, []) + [v])
  }

  /** Appending each (key, item) pair of `xs` in turn: grouping by key. */
  function Group<V>(d: Dict<seq<V>>, xs: seq<(string, V)>): (r: Dict<seq<V>>)
    ensures UniqueKeys(d) ==> UniqueKeys(r)
    decreases |xs|
  {
    if xs == [] then d else Group(Append(d, xs[0].0, xs[0].1), xs[1..])
  }

  /** The items paired with `k`, in order. */
  function Having<V>(xs: seq<(string, V)>, k: string): seq<V>
  {
    if xs == [] then [] else (if xs[0].0 == k then [xs[0].1] else []) + Having(xs[1..], k)
  }

  /** Grouping keeps the existing keys and adds new ones in first-seen order. */
  lemma {:induction false} GroupKeys<V>(d: Dict<seq<V>>, xs: seq<(string, V)>)
    ensures Keys(Group(d, xs)) == DedupInto(Keys(d), Keys(xs))
    decreases |xs|
  {
    if xs != [] {
      GroupKeys(Append(d, xs[0].0, xs[0].1), xs[1..]);
    }
  }

  /** Each key's list is its old list followed by the items paired with it, in order. */
  lemma {:induction false} GroupGet<V>(d: Dict<seq<V>>, xs: seq<(string, V)>, k: string)
    ensures Get(Group(d, xs), k) ==
            if k in Keys(d) || k in Keys(xs) then Some(GetOr(d, k, []) + Having(xs, k)) else None
    decreases |xs|
  {
    if xs == [] {
      assert GetOr(d, k, []) + Having(xs, k) == GetOr(d, k, []);
    } else {
      var d' := Append(d, xs[0].0, xs[0].1);
      GroupGet(d', xs[1..], k);
      GroupStep(d, xs, k);
    }
  }

  /** The first pair of `xs`, moved from the list into the dict. */
  lemma GroupStep<V>(d: Dict<seq<V>>, xs: seq<(string, V)>, k: string)
    requires xs != []
    ensures Group(d, xs) == Group(Append(d, xs[0].0, xs[0].1), xs[1..])
    ensures k in Keys(d) || k in Keys(xs) <==> k in Keys(Append(d, xs[0].0, xs[0].1)) || k in Keys(xs[1..])
    ensures GetOr(d, k, []) + Having(xs, k) == GetOr(Append(d, xs[0].0, xs[0].1), k, []) + Having(xs[1..], k)
  {
    assert Keys(xs) == [xs[0].0] + Keys(xs[1..]);
    AppendGet(d, xs[0].0, xs[0].1, k);
    HavingStep(xs, k, GetOr(d, k, []));
  }

  lemma HavingStep<V>(xs: seq<(string, V)>, k: string, a: seq<V>)
    requires xs != []
    ensures a + Having(xs, k) == (if k == xs[0].0 then a + [xs[0].1] else a) + Having(xs[1..], k)
  {
    var h := Having(xs[1..], k);
    if k == xs[0].0 {
      assert Having(xs, k) == [xs[0].1] + h;
      assert a + ([xs[0].1] + h) == (a + [xs[0].1]) + h;
    } else {
      assert Having(xs, k) == [] + h == h;
    }
  }

  /** One append, seen from any key. */
  lemma AppendGet<V>(d: Dict<seq<V>>, k: string, v: V, k': string)
    ensures k' in Keys(Append(d, k, v)) <==> k' in Keys(d) || k' == k
    ensures GetOr(Append(d, k, v), k', []) == if k' == k then GetOr(d, k, []) + [v] else GetOr(d, k', [])
  {
  }

  /** A key is in `Keys(d)` exactly when some entry has it. */
  lemma KeyIn<V>(d: Dict<V>, k: string)
    ensures k in Keys(d) <==> exists v :: (k, v) in d
  {
    if k in Keys(d) {
      var i :| 0 <= i < |d| && Keys(d)[i] == k;
      assert (k, d[i].1) in d;
    }
    if exists v :: (k, v) in d {
      var v :| (k, v) in d;
      var i :| 0 <= i < |d| && d[i] == (k, v);
      assert Keys(d)[i] == k;
    }
  }

  /** Grouping one more pair is one more append. */
  lemma {:induction false} GroupSnoc<V>(d: Dict<seq<V>>, xs: seq<(string, V)>, x: (string, V))
    ensures Group(d, xs + [x]) == Append(Group(d, xs), x.0, x.1)
    decreases |xs|
  {
    if xs == [] {
      assert xs + [x] == [x];
    } else {
      assert (xs + [x])[0] == xs[0] && (xs + [x])[1..] == xs[1..] + [x];
      GroupSnoc(Append(d, xs[0].0, xs[0].1), xs[1..], x);
    }
  }
}
