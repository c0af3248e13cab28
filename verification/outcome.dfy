/** Optional results and list helpers shared by the editor and player
    models. `None` stands for a Python exception that escapes the
    operation being modelled. */
module Outcome {

  datatype Option<+T> = None | Some(value: T)

  /** Applies `f` to every element; the whole map fails as soon as one
      element fails, as a Python list comprehension does when one of its
      element expressions raises. */
  function MapAll<A, B>(xs: seq<A>, f: A -> Option<B>): (r: Option<seq<B>>)
    ensures r.Some? <==> forall i :: 0 <= i < |xs| ==> f(xs[i]).Some?
    ensures r.Some? ==> |r.value| == |xs|
    ensures r.Some? ==> forall i :: 0 <= i < |xs| ==> f(xs[i]) == Some(r.value[i])
  {
    if |xs| == 0 then Some([])
    else
      match f(xs[0])
      case None => None
      case Some(y) =>
        match MapAll(xs[1..], f)
        case None =>
          assert forall i :: 1 <= i < |xs| ==> xs[i] == xs[1..][i - 1];
          None
        case Some(ys) => Some([y] + ys)
  }

  /** Applies `f` to `xs[from..]` with each element's position, in order,
      and stops at the first failure, as a Python loop that appends to a
      list and is interrupted by an exception. Returns what was collected
      and whether the loop ran to the end. */
  function CollectUntilFailure<A, B>(xs: seq<A>, from: nat, f: (nat, A) -> Option<B>): (r: (seq<B>, bool))
    requires from <= |xs|
    ensures r.1 <==> forall i :: from <= i < |xs| ==> f(i, xs[i]).Some?
    ensures r.1 ==> |r.0| == |xs| - from
    ensures !r.1 ==> from + |r.0| < |xs| && f(from + |r.0|, xs[from + |r.0|]).None?
    ensures forall k :: 0 <= k < |r.0| ==> f(from + k, xs[from + k]) == Some(r.0[k])
    decreases |xs| - from
  {
    if from == |xs| then ([], true)
    else
      match f(from, xs[from])
      case None => ([], false)
      case Some(y) =>
        var rest := CollectUntilFailure(xs, from + 1, f);
        var ys := [y] + rest.0;
        assert forall k :: 1 <= k < |ys| ==> ys[k] == rest.0[k - 1];
        (ys, rest.1)
  }

  /** The positions in `xs[from..]` at which `f` keeps a value
      (`Some(Some(_))`), in increasing order; `PositionsKept` states it. */
  function Positions<A, B>(xs: seq<A>, from: nat, f: (nat, A) -> Option<Option<B>>): seq<nat>
    requires from <= |xs|
    decreases |xs| - from
  {
    if from == |xs| then []
    else
      var rest := Positions(xs, from + 1, f);
      if f(from, xs[from]).Some? && f(from, xs[from]).value.Some? then [from] + rest else rest
  }

  /** `Positions` lists exactly the kept positions, in increasing order. */
  lemma {:induction false} PositionsKept<A, B>(xs: seq<A>, from: nat, f: (nat, A) -> Option<Option<B>>)
    requires from <= |xs|
    ensures var r := Positions(xs, from, f);
      forall k :: 0 <= k < |r| ==>
        from <= r[k] < |xs| && f(r[k], xs[r[k]]).Some? && f(r[k], xs[r[k]]).value.Some?
    ensures var r := Positions(xs, from, f);
      forall k, l :: 0 <= k < l < |r| ==> r[k] < r[l]
    ensures var r := Positions(xs, from, f);
      forall i :: from <= i < |xs| && f(i, xs[i]).Some? && f(i, xs[i]).value.Some? ==> i in r
    decreases |xs| - from
  {
    if from < |xs| {
      PositionsKept(xs, from + 1, f);
      var rest := Positions(xs, from + 1, f);
      var r := Positions(xs, from, f);
      if f(from, xs[from]).Some? && f(from, xs[from]).value.Some? {
        assert r == [from] + rest;
        assert forall k :: 1 <= k < |r| ==> r[k] == rest[k - 1];
      } else {
        assert r == rest;
      }
    }
  }

  /** When `f` keeps every element, the kept positions are all of them. */
  lemma {:induction false} PositionsAllKept<A, B>(xs: seq<A>, from: nat, f: (nat, A) -> Option<Option<B>>)
    requires from <= |xs|
    requires forall i :: from <= i < |xs| ==> f(i, xs[i]).Some? && f(i, xs[i]).value.Some?
    ensures |Positions(xs, from, f)| == |xs| - from
    ensures forall k :: 0 <= k < |xs| - from ==> Positions(xs, from, f)[k] == from + k
    decreases |xs| - from
  {
    if from < |xs| {
      PositionsAllKept(xs, from + 1, f);
      var rest := Positions(xs, from + 1, f);
      var all := Positions(xs, from, f);
      assert all == [from] + rest;
      forall k | 0 <= k < |xs| - from
        ensures all[k] == from + k
      {
        if k > 0 {
          assert all[k] == rest[k - 1];
        }
      }
    }
  }

  /** A Python loop that appends a value for some elements, skips others
      and may be interrupted by an exception: `f` yields `None` to raise,
      `Some(None)` to skip and `Some(Some(v))` to append `v`. The loop
      raises exactly when `f` raises for some element. */
  function FilterMapAll<A, B>(xs: seq<A>, from: nat, f: (nat, A) -> Option<Option<B>>): (r: Option<seq<B>>)
    requires from <= |xs|
    ensures r.Some? <==> forall i :: from <= i < |xs| ==> f(i, xs[i]).Some?
    ensures r.Some? ==> |r.value| == |Positions(xs, from, f)|
    decreases |xs| - from
  {
    if from == |xs| then Some([])
    else
      match f(from, xs[from])
      case None => None
      case Some(kept) =>
        match FilterMapAll(xs, from + 1, f)
        case None => None
        case Some(rest) => if kept.Some? then Some([kept.value] + rest) else Some(rest)
  }

  /** One step of `FilterMapAll` and `Positions` at position `from`. */
  lemma FilterMapAllUnfold<A, B>(xs: seq<A>, from: nat, f: (nat, A) -> Option<Option<B>>)
    requires from < |xs|
    requires FilterMapAll(xs, from, f).Some?
    ensures f(from, xs[from]).Some? && FilterMapAll(xs, from + 1, f).Some?
    ensures f(from, xs[from]).value.Some? ==>
      && FilterMapAll(xs, from, f).value == [f(from, xs[from]).value.value] + FilterMapAll(xs, from + 1, f).value
      && Positions(xs, from, f) == [from] + Positions(xs, from + 1, f)
    ensures f(from, xs[from]).value.None? ==>
      && FilterMapAll(xs, from, f).value == FilterMapAll(xs, from + 1, f).value
      && Positions(xs, from, f) == Positions(xs, from + 1, f)
  {
  }

  /** When the loop of `FilterMapAll` completes, its k-th value is the one
      made at the k-th kept position. */
  lemma {:induction false} FilterMapAllAt<A, B>(xs: seq<A>, from: nat, f: (nat, A) -> Option<Option<B>>, k: nat)
    requires from <= |xs|
    requires FilterMapAll(xs, from, f).Some?
    requires k < |Positions(xs, from, f)|
    ensures var i := Positions(xs, from, f)[k];
      i < |xs| && f(i, xs[i]) == Some(Some(FilterMapAll(xs, from, f).value[k]))
    decreases |xs| - from
  {
    FilterMapAllUnfold(xs, from, f);
    var ys := FilterMapAll(xs, from, f).value;
    var rest := FilterMapAll(xs, from + 1, f).value;
    var idx := Positions(xs, from, f);
    var restIdx := Positions(xs, from + 1, f);
    var kept := f(from, xs[from]).value;
    if kept.None? {
      FilterMapAllAt(xs, from + 1, f, k);
    } else if k == 0 {
      assert idx[0] == from && ys[0] == kept.value;
    } else {
      FilterMapAllAt(xs, from + 1, f, k - 1);
      assert idx[k] == restIdx[k - 1] && ys[k] == rest[k - 1];
    }
  }
}
