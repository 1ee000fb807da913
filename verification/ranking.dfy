/** Python's stable `sort(key=..., reverse=True)` applied to positions
    0..|key|-1, and the `[:k]` selection of its head. Both the keyword
    extractor (`Counter.most_common`) and the summarizer rank this way: a
    larger key first, and on equal keys the earlier position first. */
module Ranking {
  import Seqs

  /** Position `a` is ranked ahead of position `b`. */
  predicate Before(key: seq<real>, a: nat, b: nat)
    requires a < |key| && b < |key|
  {
    key[a] > key[b] || (key[a] == key[b] && a < b)
  }

  predicate InRange(key: seq<real>, o: seq<nat>) {
    forall p :: 0 <= p < |o| ==> o[p] < |key|
  }

  /** Every earlier entry of `o` is ranked ahead of every later one. */
  predicate Ranked(key: seq<real>, o: seq<nat>)
    requires InRange(key, o)
  {
    forall p, q :: 0 <= p < q < |o| ==> Before(key, o[p], o[q])
  }

  /** Insert position `i`, larger than every entry of `o`, behind every entry with a key at least as large. */
  function Insert(key: seq<real>, o: seq<nat>, i: nat): (r: seq<nat>)
    requires i < |key| && InRange(key, o) && Ranked(key, o)
    requires forall p :: 0 <= p < |o| ==> o[p] < i
    ensures |r| == |o| + 1
    ensures InRange(key, r) && Ranked(key, r)
    ensures forall x :: x in r <==> x in o || x == i
  {
    if o == [] then [i]
    else if key[o[0]] >= key[i] then
      var rest := Insert(key, o[1..], i);
      var r := [o[0]] + rest;
      assert Ranked(key, r) by {
        forall p, q | 0 <= p < q < |r| ensures Before(key, r[p], r[q]) {
          if p == 0 && r[q] != i {
            assert r[q] in o[1..];
            var z :| 0 <= z < |o[1..]| && o[1..][z] == r[q];
            assert o[z + 1] == r[q];
          } else if p > 0 {
            assert r[p] == rest[p - 1] && r[q] == rest[q - 1];
          }
        }
      }
      r
    else
      [i] + o
  }

  /** The positions 0..m-1 ranked. */
  function RankPrefix(key: seq<real>, m: nat): (r: seq<nat>)
    requires m <= |key|
    ensures |r| == m
    ensures InRange(key, r) && Ranked(key, r)
    ensures forall x: nat :: x in r <==> x < m
  {
    if m == 0 then []
    else
      var o := RankPrefix(key, m - 1);
      assert forall p :: 0 <= p < |o| ==> o[p] < m - 1 by {
        forall p | 0 <= p < |o| ensures o[p] < m - 1 {
          assert o[p] in o;
        }
      }
      Insert(key, o, m - 1)
  }

  /** All positions of `key`, in ranking order: the outcome of a stable descending sort. */
  function Order(key: seq<real>): (r: seq<nat>)
    ensures |r| == |key|
    ensures InRange(key, r) && Ranked(key, r)
    ensures Seqs.Distinct(r)
    ensures forall x: nat :: x in r <==> x < |key|
  {
    var r := RankPrefix(key, |key|);
    assert Seqs.Distinct(r) by {
      forall p, q | 0 <= p < q < |r| ensures r[p] != r[q] {
        assert Before(key, r[p], r[q]);
      }
    }
    r
  }

  /** `sorted(..., reverse=True)[:k]`: the first `k` positions in ranking order. */
  function Top(key: seq<real>, k: int): (r: seq<nat>)
    ensures r <= Order(key)
    ensures 0 <= k ==> |r| == if k < |key| then k else |key|
    ensures k < 0 ==> |r| == if |key| + k < 0 then 0 else |key| + k
  {
    Seqs.PyTake(Order(key), k)
  }

  /** The selected positions are distinct positions of `key`. */
  lemma TopDistinct(key: seq<real>, k: int)
    ensures Seqs.Distinct(Top(key, k))
    ensures forall p :: 0 <= p < |Top(key, k)| ==> Top(key, k)[p] < |key|
  {
    var o, t := Order(key), Top(key, k);
    forall p, q | 0 <= p < q < |t| ensures t[p] != t[q] {
      assert t[p] == o[p] && t[q] == o[q];
    }
    forall p | 0 <= p < |t| ensures t[p] < |key| {
      assert t[p] == o[p];
    }
  }

  /** A selected position is ranked ahead of every position left out. */
  lemma TopDominates(key: seq<real>, k: int, i: nat, j: nat)
    requires i in Top(key, k)
    requires j < |key| && j !in Top(key, k)
    ensures i < |key| && Before(key, i, j)
  {
    var o, t := Order(key), Top(key, k);
    var p :| 0 <= p < |t| && t[p] == i;
    assert o[p] == i;
    assert j in o;
    var q :| 0 <= q < |o| && o[q] == j;
    assert p < q;
  }

  /** The positions 0..m-1 that belong to `s`, in increasing order: `sorted` by position. */
  function Ascending(s: seq<nat>, m: nat): (r: seq<nat>)
    ensures forall p, q :: 0 <= p < q < |r| ==> r[p] < r[q]
    ensures forall x: nat :: x in r <==> x < m && x in s
    ensures |r| <= m
  {
    if m == 0 then []
    else
      var r := Ascending(s, m - 1);
      assert forall p :: 0 <= p < |r| ==> r[p] < m - 1 by {
        forall p | 0 <= p < |r| ensures r[p] < m - 1 {
          assert r[p] in r;
        }
      }
      if m - 1 in s then r + [m - 1] else r
  }

  /** Every listed position is below `m`. */
  lemma AscendingBelow(s: seq<nat>, m: nat)
    ensures forall p :: 0 <= p < |Ascending(s, m)| ==> Ascending(s, m)[p] < m
  {
    var r := Ascending(s, m);
    forall p | 0 <= p < |r| ensures r[p] < m {
      assert r[p] in r;
    }
  }

  /** A sequence of distinct positions below `m` has exactly as many entries in increasing order. */
  lemma {:induction false} AscendingLength(s: seq<nat>, m: nat)
    requires Seqs.Distinct(s)
    requires forall p :: 0 <= p < |s| ==> s[p] < m
    ensures |Ascending(s, m)| == |s|
  {
    var r := Ascending(s, m);
    assert Seqs.Distinct(r) by {
      forall p, q | 0 <= p < q < |r| ensures r[p] != r[q] {
        assert r[p] < r[q];
      }
    }
    forall x | x in s ensures x in r {
      var p :| 0 <= p < |s| && s[p] == x;
      assert x < m;
    }
    var sr, ss := set x: nat | x in r, set x: nat | x in s;
    assert sr == ss;
    Seqs.DistinctCardinality(r);
    Seqs.DistinctCardinality(s);
  }
}
