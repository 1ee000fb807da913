/** Sequence helpers shared by the text tools and the catalogue grouping:
    occurrence counts, first-occurrence de-duplication (the key order of a
    Python `Counter` and of a JavaScript object built by insertion) and
    Python's `xs[:k]` slice. */
module Seqs {

  predicate Distinct<T(==)>(xs: seq<T>) {
    forall i, j :: 0 <= i < j < |xs| ==> xs[i] != xs[j]
  }

  function Count<T(==)>(xs: seq<T>, x: T): (n: nat)
    ensures n == 0 <==> x !in xs
    ensures n <= |xs|
  {
    if xs == [] then 0
    else Count(xs[..|xs| - 1], x) + (if xs[|xs| - 1] == x then 1 else 0)
  }

  lemma CountAppend<T>(xs: seq<T>, ys: seq<T>, x: T)
    ensures Count(xs + ys, x) == Count(xs, x) + Count(ys, x)
    decreases |ys|
  {
    if ys == [] {
      assert xs + ys == xs;
    } else {
      assert (xs + ys)[..|xs + ys| - 1] == xs + ys[..|ys| - 1];
      CountAppend(xs, ys[..|ys| - 1], x);
    }
  }

  lemma CountCons<T>(y: T, xs: seq<T>, x: T)
    ensures Count([y] + xs, x) == (if y == x then 1 else 0) + Count(xs, x)
  {
    CountAppend([y], xs, x);
    assert [y][..0] == [];
  }

  /** Index of the first occurrence of `x` in `xs`. */
  function FirstIndex<T(==)>(xs: seq<T>, x: T): (i: nat)
    requires x in xs
    ensures i < |xs| && xs[i] == x
    ensures forall k :: 0 <= k < i ==> xs[k] != x
  {
    if xs[0] == x then 0 else 1 + FirstIndex(xs[1..], x)
  }

  lemma FirstIndexPrefix<T>(xs: seq<T>, ys: seq<T>, x: T)
    requires x in xs
    ensures x in xs + ys && FirstIndex(xs + ys, x) == FirstIndex(xs, x)
  {
    var i := FirstIndex(xs, x);
    assert (xs + ys)[i] == x;
  }

  /** The distinct elements of `xs` in order of first occurrence. */
  function Dedup<T(==)>(xs: seq<T>): (r: seq<T>)
    ensures Distinct(r)
    ensures forall i :: 0 <= i < |r| ==> r[i] in xs
    ensures forall i :: 0 <= i < |xs| ==> xs[i] in r
    ensures |r| <= |xs|
  {
    if xs == [] then []
    else
      var d := Dedup(xs[..|xs| - 1]);
      var last := xs[|xs| - 1];
      assert xs == xs[..|xs| - 1] + [last];
      if last in d then d else d + [last]
  }

  /** Dedup keeps first-occurrence order: earlier entries first occur earlier. */
  lemma {:induction false} DedupFirstOccurrenceOrder<T>(xs: seq<T>)
    ensures forall i, j :: 0 <= i < j < |Dedup(xs)| ==>
              FirstIndex(xs, Dedup(xs)[i]) < FirstIndex(xs, Dedup(xs)[j])
  {
    if xs != [] {
      var init := xs[..|xs| - 1];
      var last := xs[|xs| - 1];
      assert xs == init + [last];
      DedupFirstOccurrenceOrder(init);
      var d, dx := Dedup(init), Dedup(xs);
      assert dx == if last in d then d else d + [last];
      forall i, j | 0 <= i < j < |dx| ensures FirstIndex(xs, dx[i]) < FirstIndex(xs, dx[j]) {
        assert i < |d| && dx[i] == d[i] && d[i] in init;
        FirstIndexPrefix(init, [last], d[i]);
        if j < |d| {
          assert dx[j] == d[j] && d[j] in init;
          FirstIndexPrefix(init, [last], d[j]);
        } else {
          assert last !in init by {
            assert forall k :: 0 <= k < |init| ==> init[k] in d;
          }
          LastFirstIndex(init, last);
        }
      }
    }
  }

  /** An element that does not occur before the end first occurs at the end. */
  lemma {:induction false} LastFirstIndex<T>(init: seq<T>, last: T)
    requires last !in init
    ensures last in init + [last] && FirstIndex(init + [last], last) == |init|
  {
    assert (init + [last])[|init|] == last;
    if init != [] {
      assert (init + [last])[1..] == init[1..] + [last];
      LastFirstIndex(init[1..], last);
    }
  }

  /** Distinct sequences have as many elements as their set. */
  lemma {:induction false} DistinctCardinality<T>(xs: seq<T>)
    requires Distinct(xs)
    ensures |set x | x in xs| == |xs|
  {
    if xs != [] {
      var init := xs[..|xs| - 1];
      DistinctCardinality(init);
      assert xs == init + [xs[|xs| - 1]];
      assert (set x | x in xs) == (set x | x in init) + {xs[|xs| - 1]};
    }
  }

  /** Python's slice `xs[:k]`: a negative `k` counts from the end. */
  function PyTake<T>(xs: seq<T>, k: int): (r: seq<T>)
    ensures 0 <= k ==> |r| == if k < |xs| then k else |xs|
    ensures k < 0 ==> |r| == if |xs| + k < 0 then 0 else |xs| + k
    ensures r <= xs
  {
    if 0 <= k then (if k < |xs| then xs[..k] else xs)
    else (if |xs| + k < 0 then [] else xs[..|xs| + k])
  }
}
