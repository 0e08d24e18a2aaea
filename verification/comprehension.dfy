/** Python's filtered list comprehension `[f(x) for x in xs if keep(x)]` over a sequence,
    and the facts about it that do not depend on what `f` and `keep` are. */
module Comprehension {

  /** `[f(x) for x in xs if keep(x)]`. */
  function Select<T, U>(xs: seq<T>, keep: T -> bool, f: T -> U): (ys: seq<U>)
    ensures |ys| <= |xs|
  {
    if |xs| == 0 then [] else (if keep(xs[0]) then [f(xs[0])] else []) + Select(xs[1..], keep, f)
  }

  /** The positions, from `from` on, of the elements that are kept, in increasing order. */
  function KeptIndices<T>(xs: seq<T>, keep: T -> bool, from: nat): (idx: seq<nat>)
    requires from <= |xs|
    ensures forall k :: 0 <= k < |idx| ==> from <= idx[k] < |xs| && keep(xs[idx[k]])
    ensures forall k, m :: 0 <= k < m < |idx| ==> idx[k] < idx[m]
    decreases |xs| - from
  {
    if from == |xs| then []
    else (if keep(xs[from]) then [from] else []) + KeptIndices(xs, keep, from + 1)
  }

  /** Every kept element from `from` on has its position listed. */
  lemma {:induction false} KeptIndicesComplete<T>(xs: seq<T>, keep: T -> bool, from: nat, i: nat)
    requires from <= i < |xs| && keep(xs[i])
    ensures i in KeptIndices(xs, keep, from)
    decreases i - from
  {
    if from < i {
      KeptIndicesComplete(xs, keep, from + 1, i);
    }
  }

  /** `ys` are the images under `f` of the elements of `xs` at positions `idx`, in order. */
  ghost predicate ImagesAt<T, U>(ys: seq<U>, xs: seq<T>, f: T -> U, idx: seq<nat>) {
    && |ys| == |idx|
    && forall k :: 0 <= k < |idx| ==> idx[k] < |xs| && ys[k] == f(xs[idx[k]])
  }

  lemma ImagesAtCons<T, U>(y: U, ys: seq<U>, xs: seq<T>, f: T -> U, i: nat, idx: seq<nat>)
    requires i < |xs| && y == f(xs[i])
    requires ImagesAt(ys, xs, f, idx)
    ensures ImagesAt([y] + ys, xs, f, [i] + idx)
  {
    var ys', idx' := [y] + ys, [i] + idx;
    forall k | 0 <= k < |idx'| ensures idx'[k] < |xs| && ys'[k] == f(xs[idx'[k]]) {
      if k > 0 {
        assert ys'[k] == ys[k - 1] && idx'[k] == idx[k - 1];
      }
    }
  }

  lemma {:induction false} SelectSuffix<T, U>(xs: seq<T>, keep: T -> bool, f: T -> U, from: nat)
    requires from <= |xs|
    ensures ImagesAt(Select(xs[from..], keep, f), xs, f, KeptIndices(xs, keep, from))
    decreases |xs| - from
  {
    if from < |xs| {
      SelectSuffix(xs, keep, f, from + 1);
      assert xs[from..][1..] == xs[from + 1..];
      var rest, idx' := Select(xs[from + 1..], keep, f), KeptIndices(xs, keep, from + 1);
      if keep(xs[from]) {
        assert xs[from..][0] == xs[from];
        ImagesAtCons(f(xs[from]), rest, xs, f, from, idx');
      }
    }
  }

  /** The comprehension yields one image per kept element, in order: its k-th element is
      the image of the k-th kept element. */
  lemma SelectPicksKept<T, U>(xs: seq<T>, keep: T -> bool, f: T -> U)
    ensures ImagesAt(Select(xs, keep, f), xs, f, KeptIndices(xs, keep, 0))
  {
    SelectSuffix(xs, keep, f, 0);
    assert xs[0..] == xs;
  }

  /** The comprehension distributes over concatenation. */
  lemma {:induction false} SelectAppend<T, U>(xs: seq<T>, ys: seq<T>, keep: T -> bool, f: T -> U)
    ensures Select(xs + ys, keep, f) == Select(xs, keep, f) + Select(ys, keep, f)
  {
    if |xs| > 0 {
      assert (xs + ys)[1..] == xs[1..] + ys;
      SelectAppend(xs[1..], ys, keep, f);
    } else {
      assert xs + ys == ys;
    }
  }

  lemma SelectPair<T, U>(x: T, y: T, keep: T -> bool, f: T -> U)
    ensures Select([x, y], keep, f) == Select([x], keep, f) + Select([y], keep, f)
  {
    assert [x, y] == [x] + [y];
    SelectAppend([x], [y], keep, f);
  }

  /** The comprehension is empty exactly when no element is kept. */
  lemma {:induction false} SelectEmptyIffNoneKept<T, U>(xs: seq<T>, keep: T -> bool, f: T -> U)
    ensures Select(xs, keep, f) == [] <==> forall k :: 0 <= k < |xs| ==> !keep(xs[k])
  {
    if |xs| > 0 {
      SelectEmptyIffNoneKept(xs[1..], keep, f);
      assert forall k :: 1 <= k < |xs| ==> xs[1..][k - 1] == xs[k];
    }
  }
}
