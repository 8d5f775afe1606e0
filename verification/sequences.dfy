/** Two list shapes the pipeline is built from, stated once: keeping some of
    the elements of a list in their original order (the recency filter and
    the URL deduplication), and concatenating the records that a fixed list
    of upstream units produce (the three source adapters). */
module Sequences {

  /** `idx` lists positions in strictly increasing order. */
  ghost predicate Increasing(idx: seq<nat>) {
    forall i, j :: 0 <= i < j < |idx| ==> idx[i] < idx[j]
  }

  /** `out` is what is found in `xs` at the positions `idx`, in that order:
      together with `Increasing(idx)`, `out` is an order-preserving
      subsequence of `xs` whose elements are unchanged. */
  ghost predicate Picks<T>(out: seq<T>, xs: seq<T>, idx: seq<nat>) {
    |out| == |idx| && forall i :: 0 <= i < |idx| ==> idx[i] < |xs| && out[i] == xs[idx[i]]
  }

  /** The elements `x` of `xs` for which `keep(p, x)` holds, where `p` is the
      part of `xs` before `x`, in their original order. */
  function SelectBy<T>(xs: seq<T>, keep: (seq<T>, T) -> bool): seq<T> {
    if xs == [] then []
    else
      var init, last := xs[..|xs| - 1], xs[|xs| - 1];
      SelectBy(init, keep) + (if keep(init, last) then [last] else [])
  }

  /** The positions of `xs` that `SelectBy` keeps. */
  ghost function SelectedIdx<T>(xs: seq<T>, keep: (seq<T>, T) -> bool): seq<nat> {
    if xs == [] then []
    else
      var init, last := xs[..|xs| - 1], xs[|xs| - 1];
      SelectedIdx(init, keep) + (if keep(init, last) then [|xs| - 1] else [])
  }

  /** The kept positions are positions of `xs`, in strictly increasing order. */
  lemma {:induction false} SelectedIdxIncreasing<T>(xs: seq<T>, keep: (seq<T>, T) -> bool)
    ensures forall i :: 0 <= i < |SelectedIdx(xs, keep)| ==> SelectedIdx(xs, keep)[i] < |xs|
    ensures Increasing(SelectedIdx(xs, keep))
  {
    if xs != [] {
      SelectedIdxIncreasing(xs[..|xs| - 1], keep);
    }
  }

  /** `SelectBy` returns the elements found at the kept positions. */
  lemma {:induction false} SelectByPicks<T>(xs: seq<T>, keep: (seq<T>, T) -> bool)
    ensures Picks(SelectBy(xs, keep), xs, SelectedIdx(xs, keep))
  {
    if xs != [] {
      var init := xs[..|xs| - 1];
      SelectByPicks(init, keep);
      SelectedIdxIncreasing(init, keep);
      var idx0 := SelectedIdx(init, keep);
      forall i | 0 <= i < |idx0| ensures init[idx0[i]] == xs[idx0[i]] { }
    }
  }

  /** Position `k` is kept exactly when `keep` accepts `xs[k]` after `xs[..k]`. */
  lemma {:induction false} SelectedIdxMembers<T>(xs: seq<T>, keep: (seq<T>, T) -> bool)
    ensures forall k :: k in SelectedIdx(xs, keep) <==> 0 <= k < |xs| && keep(xs[..k], xs[k])
  {
    if xs != [] {
      var init, last := xs[..|xs| - 1], xs[|xs| - 1];
      SelectedIdxMembers(init, keep);
      SelectedIdxIncreasing(init, keep);
      forall k | 0 <= k < |init|
        ensures keep(init[..k], init[k]) == keep(xs[..k], xs[k])
      {
        assert init[..k] == xs[..k];
      }
      assert |xs| - 1 !in SelectedIdx(init, keep);
    }
  }

  /** `SelectBy(xs, keep)` is exactly the subsequence of `xs` made of the
      positions `k` at which `keep(xs[..k], xs[k])` holds. */
  lemma SelectByExact<T>(xs: seq<T>, keep: (seq<T>, T) -> bool)
    ensures Increasing(SelectedIdx(xs, keep))
    ensures Picks(SelectBy(xs, keep), xs, SelectedIdx(xs, keep))
    ensures forall k :: k in SelectedIdx(xs, keep) <==> 0 <= k < |xs| && keep(xs[..k], xs[k])
  {
    SelectedIdxIncreasing(xs, keep);
    SelectByPicks(xs, keep);
    SelectedIdxMembers(xs, keep);
  }

  /** Every kept element comes from the input, and the output is no longer. */
  lemma SelectBySubset<T>(xs: seq<T>, keep: (seq<T>, T) -> bool)
    ensures |SelectBy(xs, keep)| <= |xs|
    ensures forall x :: x in SelectBy(xs, keep) ==> x in xs
  {
    SelectByPicks(xs, keep);
    SelectedIdxIncreasing(xs, keep);
    var out, idx := SelectBy(xs, keep), SelectedIdx(xs, keep);
    forall x | x in out ensures x in xs {
      var i :| 0 <= i < |out| && out[i] == x;
      assert xs[idx[i]] == x;
    }
    IncreasingBound(idx, |xs|);
  }

  /** One more element: what a loop over `xs` decides at step `i`. */
  lemma SelectByStep<T>(xs: seq<T>, i: nat, keep: (seq<T>, T) -> bool)
    requires i < |xs|
    ensures SelectBy(xs[..i + 1], keep) ==
      SelectBy(xs[..i], keep) + (if keep(xs[..i], xs[i]) then [xs[i]] else [])
  {
    assert xs[..i + 1][..i] == xs[..i];
  }

  /** When `keep` looks only at the element, an element is in the output
      exactly when it is in the input and accepted. */
  lemma {:induction false} SelectByMembers<T>(xs: seq<T>, keep: (seq<T>, T) -> bool, accept: T -> bool)
    requires forall p, x :: keep(p, x) == accept(x)
    ensures forall x :: x in SelectBy(xs, keep) <==> x in xs && accept(x)
  {
    if xs != [] {
      var init := xs[..|xs| - 1];
      SelectByMembers(init, keep, accept);
      assert xs == init + [xs[|xs| - 1]];
    }
  }

  /** Strictly increasing positions below `n` are at most `n` many. */
  lemma {:induction false} IncreasingBound(idx: seq<nat>, n: nat)
    requires Increasing(idx)
    requires forall i :: 0 <= i < |idx| ==> idx[i] < n
    ensures |idx| <= n
  {
    if idx != [] {
      var init := idx[..|idx| - 1];
      assert forall i :: 0 <= i < |init| ==> init[i] < idx[|idx| - 1];
      IncreasingBound(init, idx[|idx| - 1]);
    }
  }

  /** The records of every unit in `units`, unit after unit, each unit's in the
      order `recordsOf` gives them. */
  function Collect<U, R>(units: seq<U>, recordsOf: U -> seq<R>): seq<R> {
    if units == [] then []
    else Collect(units[..|units| - 1], recordsOf) + recordsOf(units[|units| - 1])
  }

  /** The sum of `size(u)` over the units. */
  function SumOver<U>(units: seq<U>, size: U -> nat): nat {
    if units == [] then 0
    else SumOver(units[..|units| - 1], size) + size(units[|units| - 1])
  }

  /** `[f(x) for x in xs]`. */
  function MapSeq<A, B>(xs: seq<A>, f: A -> B): (r: seq<B>)
    ensures |r| == |xs|
    ensures forall k :: 0 <= k < |xs| ==> r[k] == f(xs[k])
  {
    if xs == [] then []
    else MapSeq(xs[..|xs| - 1], f) + [f(xs[|xs| - 1])]
  }

  /** One more unit: what a loop over the units adds at step `i`. */
  lemma CollectStep<U, R>(units: seq<U>, i: nat, recordsOf: U -> seq<R>)
    requires i < |units|
    ensures Collect(units[..i + 1], recordsOf) == Collect(units[..i], recordsOf) + recordsOf(units[i])
  {
    assert units[..i + 1][..i] == units[..i];
  }

  /** One more element: what a loop over `xs` adds at step `k`. */
  lemma MapSeqStep<A, B>(xs: seq<A>, k: nat, f: A -> B)
    requires k < |xs|
    ensures MapSeq(xs[..k + 1], f) == MapSeq(xs[..k], f) + [f(xs[k])]
  {
    assert xs[..k + 1][..k] == xs[..k];
  }

  /** Collecting over two lists of units is collecting over each in turn. */
  lemma {:induction false} CollectAppend<U, R>(a: seq<U>, b: seq<U>, recordsOf: U -> seq<R>)
    ensures Collect(a + b, recordsOf) == Collect(a, recordsOf) + Collect(b, recordsOf)
    decreases |b|
  {
    if b == [] {
      assert a + b == a;
    } else {
      var b0 := b[..|b| - 1];
      assert (a + b)[..|a + b| - 1] == a + b0;
      assert (a + b)[|a + b| - 1] == b[|b| - 1];
      CollectAppend(a, b0, recordsOf);
    }
  }

  /** Every unit contributes exactly `size(u)` records when `size` counts them. */
  lemma {:induction false} CollectLength<U, R>(units: seq<U>, recordsOf: U -> seq<R>, size: U -> nat)
    requires forall k :: 0 <= k < |units| ==> |recordsOf(units[k])| == size(units[k])
    ensures |Collect(units, recordsOf)| == SumOver(units, size)
  {
    if units != [] {
      CollectLength(units[..|units| - 1], recordsOf, size);
    }
  }

  /** Units that all yield nothing collect nothing. */
  lemma {:induction false} CollectNothing<U, R>(units: seq<U>, recordsOf: U -> seq<R>)
    requires forall k :: 0 <= k < |units| ==> recordsOf(units[k]) == []
    ensures Collect(units, recordsOf) == []
  {
    if units != [] {
      CollectNothing(units[..|units| - 1], recordsOf);
    }
  }

  /** Every collected record is one of the records of a listed unit. */
  lemma {:induction false} CollectMember<U, R>(units: seq<U>, recordsOf: U -> seq<R>, r: R)
    requires r in Collect(units, recordsOf)
    ensures exists k :: 0 <= k < |units| && r in recordsOf(units[k])
  {
    var init := units[..|units| - 1];
    if r in Collect(init, recordsOf) {
      CollectMember(init, recordsOf, r);
      var k :| 0 <= k < |init| && r in recordsOf(init[k]);
      assert init[k] == units[k];
    } else {
      assert r in recordsOf(units[|units| - 1]);
    }
  }

  /** Units that `units` does not list do not affect the result: two record
      functions that agree on every listed unit collect the same. */
  lemma {:induction false} CollectAgree<U, R>(units: seq<U>, f: U -> seq<R>, g: U -> seq<R>)
    requires forall k :: 0 <= k < |units| ==> f(units[k]) == g(units[k])
    ensures Collect(units, f) == Collect(units, g)
  {
    if units != [] {
      CollectAgree(units[..|units| - 1], f, g);
    }
  }

  /** Isolation of a failing unit: when the unit at position `i` yields nothing
      under `g` and the units at every other position yield the same under `f`
      and `g`, collecting
      with `g` gives the records of the units before it followed by those of
      the units after it, unchanged and in order. */
  lemma FailingUnitIsolated<U, R>(units: seq<U>, i: nat, f: U -> seq<R>, g: U -> seq<R>)
    requires i < |units|
    requires g(units[i]) == []
    requires forall k :: 0 <= k < |units| && k != i ==> f(units[k]) == g(units[k])
    ensures Collect(units, g) == Collect(units[..i], f) + Collect(units[i + 1..], f)
  {
    var before, after := Collect(units[..i], g), Collect(units[i + 1..], g);
    CollectSplitAt(units, i, g);
    assert before + g(units[i]) == before;
    AgreeBefore(units, i, f, g);
    AgreeAfter(units, i, f, g);
  }

  /** Collecting splits around any one unit. */
  lemma CollectSplitAt<U, R>(units: seq<U>, i: nat, g: U -> seq<R>)
    requires i < |units|
    ensures Collect(units, g) == Collect(units[..i], g) + g(units[i]) + Collect(units[i + 1..], g)
  {
    SplitAround(units, i);
    CollectAppend(units[..i + 1], units[i + 1..], g);
    CollectStep(units, i, g);
  }

  /** A list is the part up to and including position `i` followed by the rest. */
  lemma SplitAround<U>(units: seq<U>, i: nat)
    requires i < |units|
    ensures units[..i + 1] + units[i + 1..] == units
  {
  }

  lemma AgreeBefore<U, R>(units: seq<U>, i: nat, f: U -> seq<R>, g: U -> seq<R>)
    requires i < |units|
    requires forall k :: 0 <= k < |units| && k != i ==> f(units[k]) == g(units[k])
    ensures Collect(units[..i], f) == Collect(units[..i], g)
  {
    var before := units[..i];
    assert forall k :: 0 <= k < |before| ==> before[k] == units[k];
    CollectAgree(before, f, g);
  }

  lemma AgreeAfter<U, R>(units: seq<U>, i: nat, f: U -> seq<R>, g: U -> seq<R>)
    requires i < |units|
    requires forall k :: 0 <= k < |units| && k != i ==> f(units[k]) == g(units[k])
    ensures Collect(units[i + 1..], f) == Collect(units[i + 1..], g)
  {
    var after := units[i + 1..];
    assert forall k :: 0 <= k < |after| ==> after[k] == units[i + 1 + k];
    CollectAgree(after, f, g);
  }
}
