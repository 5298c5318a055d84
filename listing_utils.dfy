/** Keyword extraction of `ListingUtils.keywords`, from the token sequence on.
    The tokenizer's output and the English stop-word set are parameters.
    Tokens are byte strings, so lower-casing and the alphabetic test are the
    ASCII ones. */
module ListingUtils {
  import opened Sequences
  import opened Counter

  /** The `n` of `most_common(n)`. */
  const KeywordLimit: nat := 10

  predicate IsAsciiUpper(c: char) { 'A' <= c <= 'Z' }

  predicate IsAsciiLower(c: char) { 'a' <= c <= 'z' }

  predicate IsAsciiLetter(c: char) { IsAsciiUpper(c) || IsAsciiLower(c) }

  /** The 32 characters of `string.punctuation`, which are exactly these four ASCII ranges. */
  predicate IsPunctuation(c: char) {
    ('!' <= c <= '/') || (':' <= c <= '@') || ('[' <= c <= '`') || ('{' <= c <= '~')
  }

  predicate NotPunctuation(c: char) { !IsPunctuation(c) }

  /** `str.isalpha`: non-empty and made of letters only. */
  predicate IsAlpha(w: string) {
    |w| > 0 && forall i :: 0 <= i < |w| ==> IsAsciiLetter(w[i])
  }

  /** A non-empty word of lower-case letters only (hence without punctuation). */
  predicate IsLowerWord(w: string) {
    |w| > 0 && forall i :: 0 <= i < |w| ==> IsAsciiLower(w[i]) && !IsPunctuation(w[i])
  }

  /** `str.lower`: upper-case letters become their lower-case letter, every other character stays. */
  function Lower(t: string): (r: string)
    ensures |r| == |t|
    ensures forall c :: c in r ==> !IsAsciiUpper(c)
    ensures forall i :: 0 <= i < |r| && IsAsciiUpper(t[i]) ==> r[i] as int == t[i] as int + 32
    ensures forall i :: 0 <= i < |r| && !IsAsciiUpper(t[i]) ==> r[i] == t[i]
  {
    seq(|t|, i requires 0 <= i < |t| => if IsAsciiUpper(t[i]) then (t[i] as int + 32) as char else t[i])
  }

  /** Lower-casing a string without upper-case letters changes nothing. */
  lemma LowerKeepsNonUpper(t: string)
    requires forall c :: c in t ==> !IsAsciiUpper(c)
    ensures Lower(t) == t
  {
    forall i | 0 <= i < |t| ensures Lower(t)[i] == t[i] {
      assert t[i] in t;
    }
  }

  /** `translate(None, string.punctuation)`: deletes every punctuation character. */
  function StripPunctuation(t: string): (r: string)
    ensures forall c :: c in r <==> c in t && !IsPunctuation(c)
    ensures forall c :: multiset(r)[c] == if IsPunctuation(c) then 0 else multiset(t)[c]
    ensures IsSubsequence(r, t)
  {
    Filter(t, NotPunctuation)
  }

  /** One element of `stripped`: the token lower-cased, then stripped of punctuation. */
  function Normalize(token: string): (r: string)
    ensures forall c :: c in r ==> !IsAsciiUpper(c) && !IsPunctuation(c)
  {
    StripPunctuation(Lower(token))
  }

  /** Normalizing twice is normalizing once. */
  lemma NormalizeIdempotent(token: string)
    ensures Normalize(Normalize(token)) == Normalize(token)
  {
    var w := Normalize(token);
    LowerKeepsNonUpper(w);
    FilterKeepsAll(w, NotPunctuation);
  }

  /** A normalized token that passes `isalpha` is a lower-case word. */
  lemma NormalizedAlphaIsLowerWord(token: string)
    requires IsAlpha(Normalize(token))
    ensures IsLowerWord(Normalize(token))
  {
    var w := Normalize(token);
    forall i | 0 <= i < |w| ensures IsAsciiLower(w[i]) && !IsPunctuation(w[i]) {
      assert w[i] in w;
    }
  }

  /** The list `stripped`: every token normalized, in token order. */
  function Stripped(tokens: seq<string>): (r: seq<string>)
    ensures |r| == |tokens|
    ensures forall i :: 0 <= i < |r| ==> r[i] == Normalize(tokens[i])
    ensures forall w :: w in r && IsAlpha(w) ==> IsLowerWord(w)
  {
    var r := seq(|tokens|, i requires 0 <= i < |tokens| => Normalize(tokens[i]));
    forall i | 0 <= i < |r| && IsAlpha(r[i]) ensures IsLowerWord(r[i]) {
      NormalizedAlphaIsLowerWord(tokens[i]);
    }
    r
  }

  /** The list `words` after its last assignment: normalized tokens that are
      alphabetic and not stop words, in token order. */
  function Survivors(tokens: seq<string>, stopWords: set<string>): (r: seq<string>)
    ensures forall w :: w in r ==> IsLowerWord(w) && w !in stopWords
    ensures forall w ::
      multiset(r)[w] == if IsAlpha(w) && w !in stopWords then multiset(Stripped(tokens))[w] else 0
  {
    Filter(Filter(Stripped(tokens), IsAlpha), w => w !in stopWords)
  }

  /** `ListingUtils.keywords` after tokenization: the ten most common
      surviving words with their counts. */
  function Keywords(tokens: seq<string>, stopWords: set<string>): (r: seq<Entry<string>>)
    ensures |r| <= KeywordLimit
    ensures forall k :: 0 <= k < |r| ==> IsLowerWord(r[k].key) && r[k].key !in stopWords
    ensures forall k :: 0 <= k < |r| ==>
      0 < r[k].count == Occurrences(Survivors(tokens, stopWords), r[k].key)
    ensures Ranked(r)
    ensures forall w :: w in Survivors(tokens, stopWords) && Omits(r, w) ==>
      |r| == KeywordLimit && Occurrences(Survivors(tokens, stopWords), w) <= r[KeywordLimit - 1].count
  {
    MostCommon(Survivors(tokens, stopWords), KeywordLimit)
  }
}
