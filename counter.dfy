/** `collections.Counter` as the keyword ranking uses it: occurrence counts
    and `most_common(n)`. */
module Counter {
  import opened Sequences

  /** One `(element, count)` pair of `most_common`. */
  datatype Entry<T> = Entry(key: T, count: nat)

  /** Number of occurrences of `x` in `elems`, the value `Counter(elems)[x]`. */
  function Occurrences<T(==)>(elems: seq<T>, x: T): nat {
    multiset(elems)[x]
  }

  /** Distinct keys, counts in non-increasing order. */
  predicate Ranked<T(==)>(r: seq<Entry<T>>) {
    forall i, j :: 0 <= i < j < |r| ==> r[i].key != r[j].key && r[i].count >= r[j].count
  }

  /** No pair of `r` is about `x`. */
  predicate Omits<T(==)>(r: seq<Entry<T>>, x: T) {
    forall k :: 0 <= k < |r| ==> r[k].key != x
  }

  /** Index of the first of `cands[0..m]` with the largest count. */
  function FirstMostFrequentUpTo<T(==)>(cands: seq<T>, elems: seq<T>, m: nat): (i: nat)
    requires m < |cands|
    ensures i <= m
    ensures forall j :: 0 <= j <= m ==> Occurrences(elems, cands[j]) <= Occurrences(elems, cands[i])
    ensures forall j :: 0 <= j < i ==> Occurrences(elems, cands[j]) < Occurrences(elems, cands[i])
  {
    if m == 0 then 0
    else
      var i := FirstMostFrequentUpTo(cands, elems, m - 1);
      if Occurrences(elems, cands[i]) < Occurrences(elems, cands[m]) then m else i
  }

  /** Index of the first candidate with the largest count. */
  function FirstMostFrequent<T(==)>(cands: seq<T>, elems: seq<T>): (i: nat)
    requires |cands| > 0
    ensures i < |cands|
    ensures forall j :: 0 <= j < |cands| ==> Occurrences(elems, cands[j]) <= Occurrences(elems, cands[i])
    ensures forall j :: 0 <= j < i ==> Occurrences(elems, cands[j]) < Occurrences(elems, cands[i])
  {
    FirstMostFrequentUpTo(cands, elems, |cands| - 1)
  }

  /** No candidate is more frequent than the one `FirstMostFrequent` picks. */
  lemma FirstMostFrequentIsMaximal<T>(cands: seq<T>, elems: seq<T>, x: T)
    requires x in cands
    ensures Occurrences(elems, x) <= Occurrences(elems, cands[FirstMostFrequent(cands, elems)])
  {
    var j :| 0 <= j < |cands| && cands[j] == x;
  }

  /** `cands` with every copy of `x` removed. */
  function Without<T(==,!new)>(cands: seq<T>, x: T): (rest: seq<T>)
    ensures forall y :: y in rest <==> y in cands && y != x
  {
    if cands == [] then []
    else
      var tail := Without(cands[1..], x);
      assert forall y :: y in cands <==> y == cands[0] || y in cands[1..];
      if cands[0] == x then tail else [cands[0]] + tail
  }

  /** The most frequent candidate paired with its count, then the same for
      what is left once every copy of it is removed, `n` times or until no
      candidate is left. Among equally frequent candidates the one that comes
      first is taken first. */
  function Select<T(==,!new)>(cands: seq<T>, elems: seq<T>, n: nat): (r: seq<Entry<T>>)
    ensures |r| <= n
    ensures forall k :: 0 <= k < |r| ==> r[k].key in cands && r[k].count == Occurrences(elems, r[k].key)
    ensures Ranked(r)
    decreases n
  {
    if n == 0 || cands == [] then []
    else
      var top := cands[FirstMostFrequent(cands, elems)];
      var tail := Select(Without(cands, top), elems, n - 1);
      var r := [Entry(top, Occurrences(elems, top))] + tail;
      assert forall k :: 0 < k < |r| ==> r[k] == tail[k - 1];
      assert forall k :: 0 <= k < |tail| ==> tail[k].key != top && tail[k].count <= Occurrences(elems, top) by {
        forall k | 0 <= k < |tail| ensures tail[k].key != top && tail[k].count <= Occurrences(elems, top) {
          assert tail[k].key in Without(cands, top);
          FirstMostFrequentIsMaximal(cands, elems, tail[k].key);
        }
      }
      r
  }

  /** One step of `Select`: the most frequent candidate first, then the
      selection from the candidates without it. */
  lemma SelectStep<T(!new)>(cands: seq<T>, elems: seq<T>, n: nat)
    requires n > 0 && cands != []
    ensures var top := cands[FirstMostFrequent(cands, elems)];
      var r := Select(cands, elems, n);
      var tail := Select(Without(cands, top), elems, n - 1);
      |r| == |tail| + 1 && r[0] == Entry(top, Occurrences(elems, top)) &&
      forall k :: 0 < k < |r| ==> r[k] == tail[k - 1]
  {
    var top := cands[FirstMostFrequent(cands, elems)];
    var tail := Select(Without(cands, top), elems, n - 1);
    assert Select(cands, elems, n) == [Entry(top, Occurrences(elems, top))] + tail;
  }

  /** A candidate is left out by `Select` only when all `n` places are taken
      and the candidate is no more frequent than the last pair selected. */
  lemma {:induction false} SelectLeavesOutOnlyLessFrequent<T(!new)>(cands: seq<T>, elems: seq<T>, n: nat, x: T)
    requires x in cands && Omits(Select(cands, elems, n), x)
    ensures |Select(cands, elems, n)| == n
    ensures n > 0 ==> Occurrences(elems, x) <= Select(cands, elems, n)[n - 1].count
    decreases n
  {
    if n > 0 {
      var top := cands[FirstMostFrequent(cands, elems)];
      var rest := Without(cands, top);
      var tail := Select(rest, elems, n - 1);
      var r := Select(cands, elems, n);
      SelectStep(cands, elems, n);
      assert x in rest;
      assert Omits(tail, x) by {
        forall k | 0 <= k < |tail| ensures tail[k].key != x {
          assert r[k + 1] == tail[k];
        }
      }
      SelectLeavesOutOnlyLessFrequent(rest, elems, n - 1, x);
      if n == 1 {
        FirstMostFrequentIsMaximal(cands, elems, x);
      } else {
        assert r[n - 1] == tail[n - 2];
      }
    }
  }

  /** `Counter(elems).most_common(n)`: at most `n` pairs of an element and its
      count, distinct and by non-increasing count; an element is missing only
      when all `n` places are taken by elements at least as frequent. */
  function MostCommon<T(==,!new)>(elems: seq<T>, n: nat): (r: seq<Entry<T>>)
    ensures |r| <= n
    ensures forall k :: 0 <= k < |r| ==> r[k].key in elems && 0 < r[k].count == Occurrences(elems, r[k].key)
    ensures Ranked(r)
    ensures forall x :: x in elems && Omits(r, x) ==>
      |r| == n && (n > 0 ==> Occurrences(elems, x) <= r[n - 1].count)
  {
    var r := Select(elems, elems, n);
    forall x | x in elems && Omits(r, x) ensures |r| == n && (n > 0 ==> Occurrences(elems, x) <= r[n - 1].count) {
      SelectLeavesOutOnlyLessFrequent(elems, elems, n, x);
    }
    r
  }
}
