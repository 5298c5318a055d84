# listing-analyser in Dafny

A model of the analysis core of `listing-analyser`, a command-line tool that
searches an app store for a query and summarises the listings it finds. The
model covers the three computations in `main.py` that do not talk to the
store:

- **Keyword extraction** (`ListingUtils.keywords`). The tokens of a title or
  description are lower-cased and stripped of punctuation. Only alphabetic
  tokens that are not English stop words are kept, and the ten most common
  are returned with their counts. Modelled in `listing_utils.dfy`, module
  `ListingUtils`. The `collections.Counter` part is in `counter.dfy`, module
  `Counter`.
- **Minimum-rating filter** in `ListingAnalysis.query`. Search results rated
  below 4.1 are dropped, in order. Modelled in `listing_analysis.dfy`, module
  `ListingAnalysis`, on the order-preserving `Filter` of `sequences.dfy`
  (module `Sequences`).
- **Histogram aggregation** in `ListingAnalysis.query`:
  - the per-listing rating histograms are merged into a total over the star
    keys 1..5;
  - the total number of ratings is summed;
  - the weighted average is computed with Python 2 integer division.

  This is the imperative method `ListingAnalysis.AggregateRatings`. It is
  proved against the reference sum `StarTotal`, and lemmas about `StarTotal`
  give order independence, additivity and the bounds of the average.

Conventions of the model:

- Strings are `seq<char>`. The tokens are Python 2 byte strings, so `lower`,
  `isalpha` and `string.punctuation` have their ASCII meaning.
- Ratings are exact `real`s and histogram counts are unbounded `int`s.
- The dictionary iteration order of a histogram's keys is left open. The
  merge picks any remaining key on each step.

Arithmetic, and the two places where the model departs from the code:

- **Average.** Python 2 `/` on the two integer results floors the
  quotient (main.py:121). `FloorDiv` models that floor division.
- **Ties in `most_common`.** The code lists equally frequent words in
  the `Counter`'s dictionary order (main.py:71). The model lists them by
  first occurrence. The `Keywords` line under "Left out" gives the details.
- **Zero total.** The code divides by the zero total (main.py:121), and the
  result depends on numpy's error settings. The model returns
  `Failure(DivisionUndefined)`. The first `AggregateRatings` line under
  "Left out" gives the details.

## Model

| member | source | states |
|---|---|---|
| Sequences.Filter | main.py:65 | A list comprehension with a condition keeps an element exactly when it is in the input and satisfies the condition. Each kept element occurs as often as in the input, and the result is a subsequence of the input. |
| Sequences.FilterKeepsAll | main.py:64 | A filter whose condition every element passes returns its input unchanged. |
| ListingUtils.Lower | main.py:64 | `lower()` keeps the length and leaves no upper-case letter. An upper-case letter becomes its lower-case letter, 32 code points on; every other character is unchanged. |
| ListingUtils.LowerKeepsNonUpper | main.py:64 | Lower-casing a string that has no upper-case letter returns it unchanged. |
| ListingUtils.StripPunctuation | main.py:64 | `translate(None, string.punctuation)` deletes every punctuation character. Every other character keeps its number of occurrences, and the result is a subsequence of the input. |
| ListingUtils.Normalize | main.py:64 | A normalized token contains neither upper-case letters nor punctuation. |
| ListingUtils.NormalizeIdempotent | main.py:64 | Normalizing an already normalized token changes nothing. |
| ListingUtils.NormalizedAlphaIsLowerWord | main.py:64-65 | A normalized token that passes `isalpha` is a non-empty word of lower-case letters. |
| ListingUtils.Stripped | main.py:64 | `stripped` has one entry per token: the token normalized, at the same position. Its alphabetic entries are lower-case words. |
| ListingUtils.Survivors | main.py:65-69 | The final `words` list holds only lower-case words that are not stop words. Every alphabetic non-stop word occurs exactly as often as in `stripped`; every other string occurs 0 times. |
| ListingUtils.Keywords | main.py:61-71 | `keywords` returns at most 10 pairs. Each key is a lower-case, punctuation-free, non-stop word, paired with its positive number of occurrences among the surviving words. Keys are distinct and counts do not increase. A surviving word is missing only when all 10 places are taken and its count is at most the tenth count, so when fewer than 10 distinct words survive, all of them are returned. |
| Counter.FirstMostFrequentUpTo | main.py:71 | Among the first `m + 1` candidates, the index returned has the largest count, and no earlier candidate has that count. |
| Counter.FirstMostFrequent | main.py:71 | The index returned holds a candidate with the largest count, and no earlier candidate has that count. |
| Counter.FirstMostFrequentIsMaximal | main.py:71 | No candidate occurs more often than the one chosen first. |
| Counter.Without | main.py:71 | Removing an element leaves exactly the other candidates. |
| Counter.Select | main.py:71 | Selection returns at most `n` pairs of candidates with their occurrence counts. Keys are distinct and counts are non-increasing. |
| Counter.SelectLeavesOutOnlyLessFrequent | main.py:71 | A candidate is left out only when all `n` places are filled and it is no more frequent than the last pair selected. |
| Counter.MostCommon | main.py:71 | `most_common(n)` returns at most `n` pairs of an element and its positive count, with distinct keys and non-increasing counts. An element is missing only when all `n` places are taken by elements at least as frequent. |
| ListingAnalysis.FilterByRating | main.py:96 | The rating filter keeps exactly the listings rated at least 4.1, each as often as in the input, as a subsequence of the input. |
| ListingAnalysis.FloorDiv | main.py:121 | Python 2 integer `/` returns the floor of the quotient for either sign of the divisor. |
| ListingAnalysis.AggregateRatings | main.py:114-121 | The merged histogram has exactly the keys 1..5. Each holds the sum of the listings' counts for that star, where an absent key counts 0 and other keys are ignored. The total is the sum of the five entries. The average fails exactly when the total is 0 and is otherwise the floor of the weighted sum over the total. |
| ListingAnalysis.StarTotalConcat | main.py:115-118 | Merging two batches of listings one after the other adds their totals. |
| ListingAnalysis.StarTotalRemove | main.py:115-118 | Taking one listing out of the merge removes exactly its count. |
| ListingAnalysis.StarTotalOrderIndependent | main.py:115-118 | The merged totals do not depend on the order of the listings. |
| ListingAnalysis.ForeignKeysIgnored | main.py:116-118 | Listings whose histograms agree on the keys 1..5 merge to the same totals, whatever their other keys hold. |
| ListingAnalysis.StarTotalNonNegative | main.py:115-118 | With non-negative counts, every merged total is non-negative. |
| ListingAnalysis.FloorDivBetweenOneAndFive | main.py:121 | The floor of `a / b` lies in 1..5 when `0 < b <= a <= 5b`. |
| ListingAnalysis.AverageWithinStars | main.py:120-121 | With non-negative counts and at least one rating, the average lies between one and five stars. |

## Left out

- Store access (`search_listings`, `fetch_listing`, `play_scraper`) is network I/O. `ListingSummary` and `ListingDetail` model its results as records, and the model starts from those records.
- `nltk.word_tokenize` and the English stop-word corpus are external data. The token sequence and the stop-word set are parameters of `Keywords`.
- `token.encode('utf8')`: tokens are modelled as already-encoded ASCII strings. Multi-byte characters, and the error `encode` raises on non-ASCII byte strings, are not modelled.
- `print` output, the command line in `__main__` and the per-listing keyword assignment loop (main.py:106-108) are I/O and plumbing around `Keywords`. They are not modelled.
- `rating` and `assign_value` have no effect in the source, so they have no model.
- Keywords: ties between equally frequent words are resolved by first occurrence. `Counter.most_common` resolves them by the `Counter`'s dictionary iteration order, which depends on string hashing. Every property above holds for any tie order, except the first-occurrence clause of `FirstMostFrequent`.
- AggregateRatings: a zero total is reported as `Failure(DivisionUndefined)`. In the source, `numpy.dot` returns a numpy integer scalar, and whether dividing it by zero raises, warns or yields 0 depends on numpy's error settings. The model reports the undefined case instead of a particular value.
- AggregateRatings: counts are unbounded integers. numpy's 64-bit wrap-around in `numpy.dot` is not modelled.
- AggregateRatings: histogram keys are integers. Keys of other types cannot be represented in the model.
- FilterByRating: ratings are exact reals, so `4.1` is exact. Binary floating-point rounding of `float(result['score'])`, and NaN ratings (which fail `>=`), are not modelled.
