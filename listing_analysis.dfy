/** The analysis steps of `ListingAnalysis.query`: the minimum-rating filter
    over the search results, and the merge of the listings' rating histograms
    into a total histogram with its weighted average. */
module ListingAnalysis {
  import opened Sequences

  /** One search result, as built by `search_listings`. */
  datatype ListingSummary = ListingSummary(applicationId: string, rating: real, title: string, summary: string)

  /** A rating histogram: star value to number of ratings. */
  type Histogram = map<int, int>

  /** One listing's full details, as built by `fetch_listing`. */
  datatype ListingDetail = ListingDetail(
    applicationId: string,
    title: string,
    summary: string,
    description: string,
    editorsChoice: bool,
    rating: real,
    totalReviews: int,
    histogram: Histogram,
    installs: string)

  datatype Error = DivisionUndefined

  datatype Result<T> = Success(value: T) | Failure(error: Error)

  /** Listings rated below this are dropped. */
  const MinRating: real := 4.1

  /** The keys of the total histogram. */
  const Stars: set<int> := {1, 2, 3, 4, 5}

  // ---------------------------------------------------------------------------
  // Minimum-rating filter

  /** `[l for l in listings if l['rating'] >= 4.1]`: exactly the listings rated
      at least `MinRating`, each as often as in the input, in input order. */
  function FilterByRating(listings: seq<ListingSummary>): (r: seq<ListingSummary>)
    ensures forall l :: l in r ==> l.rating >= MinRating
    ensures forall l :: l in listings && l.rating >= MinRating ==> l in r
    ensures forall l :: multiset(r)[l] == if l.rating >= MinRating then multiset(listings)[l] else 0
    ensures IsSubsequence(r, listings)
  {
    Filter(listings, (l: ListingSummary) => l.rating >= MinRating)
  }

  // ---------------------------------------------------------------------------
  // Histogram aggregation: the reference definitions

  /** A histogram's count for `star`; an absent key counts 0. */
  function StarCount(h: Histogram, star: int): int {
    if star in h then h[star] else 0
  }

  /** The sum, over all listings, of their count for `star`. */
  function StarTotal(listings: seq<ListingDetail>, star: int): int {
    if listings == [] then 0
    else StarTotal(listings[..|listings| - 1], star) + StarCount(listings[|listings| - 1].histogram, star)
  }

  /** `sum(total_histogram.values())` for a histogram whose keys are `Stars`. */
  function TotalRatings(t: Histogram): int {
    StarCount(t, 1) + StarCount(t, 2) + StarCount(t, 3) + StarCount(t, 4) + StarCount(t, 5)
  }

  /** `numpy.dot(total_histogram.keys(), total_histogram.values())` for a
      histogram whose keys are `Stars`: the sum of star times count. */
  function WeightedSum(t: Histogram): int {
    1 * StarCount(t, 1) + 2 * StarCount(t, 2) + 3 * StarCount(t, 3) + 4 * StarCount(t, 4) + 5 * StarCount(t, 5)
  }

  /** Python 2 `/` on integers: the quotient rounded toward minus infinity. */
  function FloorDiv(a: int, b: int): (q: int)
    requires b != 0
    ensures b > 0 ==> q * b <= a < q * b + b
    ensures b < 0 ==> q * b + b < a <= q * b
  {
    if b > 0 then a / b
    else
      var q := (-a) / (-b);
      assert q * (-b) == -(q * b);
      q
  }

  // ---------------------------------------------------------------------------
  // Histogram aggregation: the loop

  /** The merge loop, the total and the average of `query`. The total
      histogram has exactly the keys 1..5, each holding the sum of the
      listings' counts for it; other keys are skipped. The average fails
      exactly when the total is zero, and is otherwise the floor of the
      weighted sum over the total. */
  method AggregateRatings(listings: seq<ListingDetail>) returns (total: Histogram, totalRatings: int, average: Result<int>)
    ensures total.Keys == Stars
    ensures forall k :: k in Stars ==> total[k] == StarTotal(listings, k)
    ensures totalRatings == TotalRatings(total)
    ensures average.Failure? <==> totalRatings == 0
    ensures average.Success? ==> average.value == FloorDiv(WeightedSum(total), totalRatings)
  {
    total := map[1 := 0, 2 := 0, 3 := 0, 4 := 0, 5 := 0];
    var i := 0;
    while i < |listings|
      invariant 0 <= i <= |listings|
      invariant total.Keys == Stars
      invariant forall k :: k in Stars ==> total[k] == StarTotal(listings[..i], k)
    {
      var histogram := listings[i].histogram;
      var keys := histogram.Keys;
      // `histogram.keys()` comes in no particular order: pick any key left.
      while keys != {}
        invariant keys <= histogram.Keys
        invariant total.Keys == Stars
        invariant forall k :: k in Stars ==>
          total[k] == StarTotal(listings[..i], k) + (if k in histogram && k !in keys then histogram[k] else 0)
        decreases |keys|
      {
        assert exists k :: k in keys by {
          if forall k :: k !in keys {
            assert false;
          }
        }
        var key :| key in keys;
        if key in total {
          total := total[key := total[key] + histogram[key]];
        }
        keys := keys - {key};
      }
      assert listings[..i + 1][..i] == listings[..i];
      i := i + 1;
    }
    assert listings[..i] == listings;
    totalRatings := total[1] + total[2] + total[3] + total[4] + total[5];
    var weighted := 1 * total[1] + 2 * total[2] + 3 * total[3] + 4 * total[4] + 5 * total[5];
    if totalRatings == 0 {
      average := Failure(DivisionUndefined);
    } else {
      average := Success(FloorDiv(weighted, totalRatings));
    }
  }

  // ---------------------------------------------------------------------------
  // Properties of the aggregation

  /** Merging a concatenation is adding the merges of its parts: merging A
      and B, then C, gives what merging A, then B and C, gives. */
  lemma {:induction false} StarTotalConcat(a: seq<ListingDetail>, b: seq<ListingDetail>, star: int)
    ensures StarTotal(a + b, star) == StarTotal(a, star) + StarTotal(b, star)
    decreases |b|
  {
    if b != [] {
      var b' := b[..|b| - 1];
      assert (a + b)[..|a + b| - 1] == a + b';
      StarTotalConcat(a, b', star);
    } else {
      assert a + b == a;
    }
  }

  /** Taking one listing out of the merge removes exactly its count. */
  lemma StarTotalRemove(s: seq<ListingDetail>, j: nat, star: int)
    requires j < |s|
    ensures StarTotal(s, star) == StarTotal(s[..j] + s[j + 1..], star) + StarCount(s[j].histogram, star)
  {
    assert s == s[..j] + [s[j]] + s[j + 1..];
    StarTotalConcat(s[..j] + [s[j]], s[j + 1..], star);
    StarTotalConcat(s[..j], [s[j]], star);
    StarTotalConcat(s[..j], s[j + 1..], star);
    assert StarTotal([s[j]], star) == StarCount(s[j].histogram, star) by {
      assert [s[j]][..0] == [];
    }
  }

  /** The merged total does not depend on the order the listings come in. */
  lemma {:induction false} StarTotalOrderIndependent(a: seq<ListingDetail>, b: seq<ListingDetail>, star: int)
    requires multiset(a) == multiset(b)
    ensures StarTotal(a, star) == StarTotal(b, star)
    decreases |a|
  {
    if a == [] {
      assert |b| == |multiset(b)| == 0;
    } else {
      var x := a[|a| - 1];
      var a' := a[..|a| - 1];
      assert a == a' + [x];
      assert x in multiset(b);
      var j :| 0 <= j < |b| && b[j] == x;
      var b' := b[..j] + b[j + 1..];
      assert b == b[..j] + [x] + b[j + 1..];
      assert multiset(a) == multiset(a') + multiset{x};
      assert multiset(b) == multiset(b[..j]) + multiset{x} + multiset(b[j + 1..]);
      assert multiset(b') == multiset(b[..j]) + multiset(b[j + 1..]);
      assert multiset(a') == multiset(a) - multiset{x};
      assert multiset(b') == multiset(b) - multiset{x};
      StarTotalOrderIndependent(a', b', star);
      StarTotalRemove(b, j, star);
    }
  }

  /** Keys outside 1..5 have no effect: listings whose histograms agree on
      the star keys merge to the same totals. */
  lemma {:induction false} ForeignKeysIgnored(a: seq<ListingDetail>, b: seq<ListingDetail>, star: int)
    requires |a| == |b|
    requires forall i, k :: 0 <= i < |a| && k in Stars ==> StarCount(a[i].histogram, k) == StarCount(b[i].histogram, k)
    requires star in Stars
    ensures StarTotal(a, star) == StarTotal(b, star)
    decreases |a|
  {
    if a != [] {
      ForeignKeysIgnored(a[..|a| - 1], b[..|b| - 1], star);
    }
  }

  /** With non-negative counts every star total is non-negative. */
  lemma {:induction false} StarTotalNonNegative(listings: seq<ListingDetail>, star: int)
    requires forall i :: 0 <= i < |listings| ==> StarCount(listings[i].histogram, star) >= 0
    ensures StarTotal(listings, star) >= 0
    decreases |listings|
  {
    if listings != [] {
      StarTotalNonNegative(listings[..|listings| - 1], star);
    }
  }

  /** The floor of `a / b` lies in 1..5 when `a` lies between `b` and `5 * b`. */
  lemma FloorDivBetweenOneAndFive(a: int, b: int)
    requires 0 < b <= a <= 5 * b
    ensures 1 <= FloorDiv(a, b) <= 5
  {
  }

  /** With non-negative counts and at least one rating, the average lies
      between one and five stars. */
  lemma AverageWithinStars(t: Histogram)
    requires forall k :: k in Stars ==> StarCount(t, k) >= 0
    requires TotalRatings(t) > 0
    ensures 1 <= FloorDiv(WeightedSum(t), TotalRatings(t)) <= 5
  {
    assert 1 in Stars && 2 in Stars && 3 in Stars && 4 in Stars && 5 in Stars;
    FloorDivBetweenOneAndFive(WeightedSum(t), TotalRatings(t));
  }
}
