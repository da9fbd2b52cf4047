/**
 * Greedy near-duplicate removal (`remove_similar_titles`). Items are scanned
 * in order; an item is kept unless its stripped title is empty or scores at
 * least 85 against the title of an item already kept. The token-set ratio is
 * a library primitive and enters as a parameter.
 */
module SimilarTitles {
  import opened Text
  import opened Seqs
  import opened News

  /** A similarity score on the 0..100 scale of the token-set ratio. */
  type Score = x: int | 0 <= x <= 100

  const SimilarityThreshold: int := 85

  /** The title is empty after `strip()`. */
  predicate BlankTitle(news: NewsItem) {
    Strip(news.title) == ""
  }

  /** `current` scores at least the threshold against the already-kept `existing`. */
  predicate Similar(ratio: (string, string) -> Score, current: NewsItem, existing: NewsItem) {
    ratio(Strip(current.title), Strip(existing.title)) >= SimilarityThreshold
  }

  predicate SimilarToAny(ratio: (string, string) -> Score, current: NewsItem, kept: seq<NewsItem>) {
    exists k | k in kept :: Similar(ratio, current, k)
  }

  /**
   * `remove_similar_titles`: the items kept after scanning `news` in order;
   * they keep their input order.
   */
  function RemoveSimilarTitles(news: seq<NewsItem>, ratio: (string, string) -> Score): (r: seq<NewsItem>)
    decreases |news|
  {
    if |news| == 0 then []
    else
      var kept := RemoveSimilarTitles(news[..|news| - 1], ratio);
      var current := news[|news| - 1];
      if BlankTitle(current) || SimilarToAny(ratio, current, kept) then kept else kept + [current]
  }

  /** The kept items are a subsequence of the input: nothing is invented or reordered. */
  lemma {:induction false} RemoveSimilarTitlesSubseq(news: seq<NewsItem>, ratio: (string, string) -> Score)
    ensures IsSubseq(RemoveSimilarTitles(news, ratio), news)
    decreases |news|
  {
    if |news| > 0 {
      var prefix := news[..|news| - 1];
      var current := news[|news| - 1];
      var kept := RemoveSimilarTitles(prefix, ratio);
      RemoveSimilarTitlesSubseq(prefix, ratio);
      assert prefix + [current] == news;
      if BlankTitle(current) || SimilarToAny(ratio, current, kept) {
        SubseqAppendRight(kept, prefix, current);
      } else {
        SubseqAppendBoth(kept, prefix, current);
      }
    }
  }

  /** One more scanned item: it is appended unless blank or similar to a kept one. */
  lemma RemoveSimilarTitlesStep(news: seq<NewsItem>, n: nat, ratio: (string, string) -> Score)
    requires n < |news|
    ensures RemoveSimilarTitles(news[..n + 1], ratio)
         == if BlankTitle(news[n]) || SimilarToAny(ratio, news[n], RemoveSimilarTitles(news[..n], ratio))
            then RemoveSimilarTitles(news[..n], ratio)
            else RemoveSimilarTitles(news[..n], ratio) + [news[n]]
  {
    assert news[..n + 1][..n] == news[..n];
  }

  /** No title in `kept` is blank, and no item is similar to one before it. */
  ghost predicate NoNearDuplicates(ratio: (string, string) -> Score, kept: seq<NewsItem>) {
    && (forall y | y in kept :: !BlankTitle(y))
    && (forall i, j | 0 <= i < j < |kept| :: !Similar(ratio, kept[j], kept[i]))
  }

  /** The output of the scan never holds a blank title or a near-duplicate pair. */
  lemma {:induction false} RemoveSimilarTitlesDistinct(news: seq<NewsItem>, ratio: (string, string) -> Score)
    ensures NoNearDuplicates(ratio, RemoveSimilarTitles(news, ratio))
    decreases |news|
  {
    if |news| > 0 {
      var n := |news| - 1;
      var current := news[n];
      RemoveSimilarTitlesDistinct(news[..n], ratio);
      var kept := RemoveSimilarTitles(news[..n], ratio);
      if !(BlankTitle(current) || SimilarToAny(ratio, current, kept)) {
        assert RemoveSimilarTitles(news, ratio) == kept + [current];
        AppendKeepsNoNearDuplicates(ratio, kept, current);
      } else {
        assert RemoveSimilarTitles(news, ratio) == kept;
      }
    }
  }

  lemma AppendKeepsNoNearDuplicates(ratio: (string, string) -> Score, kept: seq<NewsItem>, current: NewsItem)
    requires NoNearDuplicates(ratio, kept)
    requires !BlankTitle(current) && !SimilarToAny(ratio, current, kept)
    ensures NoNearDuplicates(ratio, kept + [current])
  {
    var r := kept + [current];
    forall i, j | 0 <= i < j < |r|
      ensures !Similar(ratio, r[j], r[i])
    {
      if j == |kept| {
        assert r[i] == kept[i];
        assert kept[i] in kept;
      } else {
        assert r[i] == kept[i] && r[j] == kept[j];
      }
    }
  }

  /**
   * The scan loop as written: an outer loop over the items and an inner loop
   * over the kept list that stops at the first similar title.
   */
  method RemoveSimilarTitlesLoop(news: seq<NewsItem>, ratio: (string, string) -> Score) returns (filtered: seq<NewsItem>)
    ensures filtered == RemoveSimilarTitles(news, ratio)
  {
    if |news| == 0 {
      return news;
    }
    filtered := [];
    for n := 0 to |news|
      invariant filtered == RemoveSimilarTitles(news[..n], ratio)
    {
      RemoveSimilarTitlesStep(news, n, ratio);
      var current := news[n];
      var currentTitle := Strip(current.title);
      if currentTitle != "" {
        var isSimilar := ScanKept(ratio, current, filtered);
        if !isSimilar {
          filtered := filtered + [current];
        }
      }
    }
    assert news[..|news|] == news;
  }

  /** The inner loop: compare against each kept title, stopping at the first similar one. */
  method ScanKept(ratio: (string, string) -> Score, current: NewsItem, filtered: seq<NewsItem>) returns (isSimilar: bool)
    ensures isSimilar <==> SimilarToAny(ratio, current, filtered)
  {
    var currentTitle := Strip(current.title);
    isSimilar := false;
    var k := 0;
    while k < |filtered| && !isSimilar
      invariant 0 <= k <= |filtered|
      invariant isSimilar ==> SimilarToAny(ratio, current, filtered)
      invariant !isSimilar ==> forall j | 0 <= j < k :: !Similar(ratio, current, filtered[j])
    {
      if ratio(currentTitle, Strip(filtered[k].title)) >= SimilarityThreshold {
        assert Similar(ratio, current, filtered[k]);
        isSimilar := true;
      }
      k := k + 1;
    }
  }

  /**
   * The declarative rule: item `i` is selected exactly when its title is not
   * blank and it is not similar to any earlier selected item.
   */
  ghost predicate GreedySelection(ratio: (string, string) -> Score, news: seq<NewsItem>, sel: seq<bool>) {
    && |sel| == |news|
    && forall i | 0 <= i < |news| ::
         sel[i] <==> (!BlankTitle(news[i]) && forall j | 0 <= j < i && sel[j] :: !Similar(ratio, news[i], news[j]))
  }

  /** Whether the scan keeps item `i`, judged against what it kept from the items before. */
  predicate Kept(ratio: (string, string) -> Score, news: seq<NewsItem>, i: nat)
    requires i < |news|
  {
    !BlankTitle(news[i]) && !SimilarToAny(ratio, news[i], RemoveSimilarTitles(news[..i], ratio))
  }

  function KeepMask(news: seq<NewsItem>, ratio: (string, string) -> Score): (m: seq<bool>)
    ensures |m| == |news|
  {
    seq(|news|, i requires 0 <= i < |news| => Kept(ratio, news, i))
  }

  /** The scan of the first `n` items selects exactly the items its mask flags. */
  lemma {:induction false} KeepMaskSelects(news: seq<NewsItem>, ratio: (string, string) -> Score, n: nat)
    requires n <= |news|
    ensures RemoveSimilarTitles(news[..n], ratio) == Select(news[..n], KeepMask(news, ratio)[..n])
    decreases n
  {
    if n > 0 {
      var m := KeepMask(news, ratio);
      KeepMaskSelects(news, ratio, n - 1);
      RemoveSimilarTitlesStep(news, n - 1, ratio);
      SelectStep(news, m, n - 1);
      assert m[n - 1] == Kept(ratio, news, n - 1);
    }
  }

  /** An item is similar to something kept before it exactly when it is similar to an earlier flagged item. */
  lemma SimilarToKeptIff(news: seq<NewsItem>, ratio: (string, string) -> Score, i: nat)
    requires i < |news|
    ensures SimilarToAny(ratio, news[i], RemoveSimilarTitles(news[..i], ratio))
        <==> exists j | 0 <= j < i :: KeepMask(news, ratio)[j] && Similar(ratio, news[i], news[j])
  {
    var m := KeepMask(news, ratio);
    var kept := RemoveSimilarTitles(news[..i], ratio);
    KeepMaskSelects(news, ratio, i);
    if SimilarToAny(ratio, news[i], kept) {
      var k :| k in kept && Similar(ratio, news[i], k);
      SelectMembership(news[..i], m[..i], k);
      var j :| 0 <= j < i && m[..i][j] && news[..i][j] == k;
      assert m[j] && Similar(ratio, news[i], news[j]);
    }
    if exists j | 0 <= j < i :: m[j] && Similar(ratio, news[i], news[j]) {
      var j :| 0 <= j < i && m[j] && Similar(ratio, news[i], news[j]);
      assert m[..i][j] && news[..i][j] == news[j];
      SelectMembership(news[..i], m[..i], news[j]);
      assert news[j] in kept;
    }
  }

  /** The mask of the scan satisfies the greedy rule, and the scan is the selection it makes. */
  lemma KeepMaskIsGreedy(news: seq<NewsItem>, ratio: (string, string) -> Score)
    ensures GreedySelection(ratio, news, KeepMask(news, ratio))
    ensures RemoveSimilarTitles(news, ratio) == Select(news, KeepMask(news, ratio))
  {
    var m := KeepMask(news, ratio);
    forall i | 0 <= i < |news|
      ensures m[i] <==> (!BlankTitle(news[i]) && forall j | 0 <= j < i && m[j] :: !Similar(ratio, news[i], news[j]))
    {
      SimilarToKeptIff(news, ratio, i);
    }
    KeepMaskSelects(news, ratio, |news|);
    assert news[..|news|] == news;
    assert m[..|news|] == m;
  }

  lemma {:induction false} GreedyAgreeBelow(ratio: (string, string) -> Score, news: seq<NewsItem>, s1: seq<bool>, s2: seq<bool>, k: nat)
    requires GreedySelection(ratio, news, s1) && GreedySelection(ratio, news, s2)
    requires k <= |news|
    ensures forall i | 0 <= i < k :: s1[i] == s2[i]
    decreases k
  {
    if k > 0 {
      GreedyAgreeBelow(ratio, news, s1, s2, k - 1);
      var i := k - 1;
      assert s1[i] <==> (!BlankTitle(news[i]) && forall j | 0 <= j < i && s1[j] :: !Similar(ratio, news[i], news[j]));
      assert s2[i] <==> (!BlankTitle(news[i]) && forall j | 0 <= j < i && s2[j] :: !Similar(ratio, news[i], news[j]));
    }
  }

  /** Exactly one selection satisfies the greedy rule. */
  lemma GreedySelectionUnique(ratio: (string, string) -> Score, news: seq<NewsItem>, s1: seq<bool>, s2: seq<bool>)
    requires GreedySelection(ratio, news, s1) && GreedySelection(ratio, news, s2)
    ensures s1 == s2
  {
    GreedyAgreeBelow(ratio, news, s1, s2, |news|);
  }

  /**
   * The output is the selection made by the greedy rule: first-seen wins,
   * blank titles go, and every dropped non-blank item is similar to an
   * earlier kept one.
   */
  lemma RemoveSimilarTitlesIsGreedy(ratio: (string, string) -> Score, news: seq<NewsItem>, sel: seq<bool>)
    requires GreedySelection(ratio, news, sel)
    ensures RemoveSimilarTitles(news, ratio) == Select(news, sel)
  {
    KeepMaskIsGreedy(news, ratio);
    GreedySelectionUnique(ratio, news, sel, KeepMask(news, ratio));
  }

  /** A list with no blank title and no item similar to an earlier one is left as it is. */
  lemma {:induction false} DistinctIsFixedPoint(kept: seq<NewsItem>, ratio: (string, string) -> Score)
    requires NoNearDuplicates(ratio, kept)
    ensures RemoveSimilarTitles(kept, ratio) == kept
    decreases |kept|
  {
    if |kept| > 0 {
      var n := |kept| - 1;
      var prefix := kept[..n];
      var last := kept[n];
      NoNearDuplicatesLast(ratio, kept);
      DistinctIsFixedPoint(prefix, ratio);
      assert RemoveSimilarTitles(kept, ratio) == prefix + [last];
      assert prefix + [last] == kept;
    }
  }

  /** Dropping the last item of a list without near-duplicates leaves one, and the last item is new to it. */
  lemma NoNearDuplicatesLast(ratio: (string, string) -> Score, kept: seq<NewsItem>)
    requires |kept| > 0 && NoNearDuplicates(ratio, kept)
    ensures NoNearDuplicates(ratio, kept[..|kept| - 1])
    ensures !BlankTitle(kept[|kept| - 1]) && !SimilarToAny(ratio, kept[|kept| - 1], kept[..|kept| - 1])
  {
    var n := |kept| - 1;
    var prefix := kept[..n];
    assert kept[n] in kept;
    forall i, j | 0 <= i < j < |prefix|
      ensures !Similar(ratio, prefix[j], prefix[i])
    {
      assert prefix[i] == kept[i] && prefix[j] == kept[j];
    }
    forall k | k in prefix
      ensures !Similar(ratio, kept[n], k)
    {
      var i :| 0 <= i < n && prefix[i] == k;
      assert kept[i] == k;
    }
  }

  /** Removing near-duplicates from an already de-duplicated list changes nothing. */
  lemma RemoveSimilarTitlesIdempotent(news: seq<NewsItem>, ratio: (string, string) -> Score)
    ensures RemoveSimilarTitles(RemoveSimilarTitles(news, ratio), ratio) == RemoveSimilarTitles(news, ratio)
  {
    RemoveSimilarTitlesDistinct(news, ratio);
    DistinctIsFixedPoint(RemoveSimilarTitles(news, ratio), ratio);
  }

  /** Of two near-duplicates the earlier survives; a dissimilar third item is kept. */
  lemma FirstSeenWins(ratio: (string, string) -> Score, a: NewsItem, b: NewsItem, c: NewsItem)
    requires !BlankTitle(a) && !BlankTitle(c)
    requires Similar(ratio, b, a) && !Similar(ratio, c, a)
    ensures RemoveSimilarTitles([a, b, c], ratio) == [a, c]
  {
    SecondNearDuplicateDropped(ratio, a, b);
    assert [a, b, c][..2] == [a, b];
    assert !SimilarToAny(ratio, c, [a]);
  }

  lemma SecondNearDuplicateDropped(ratio: (string, string) -> Score, a: NewsItem, b: NewsItem)
    requires !BlankTitle(a) && Similar(ratio, b, a)
    ensures RemoveSimilarTitles([a, b], ratio) == [a]
  {
    assert [a, b][..1] == [a];
    assert [a][..0] == [];
    assert RemoveSimilarTitles([a], ratio) == [a];
    assert a in [a];
  }
}
