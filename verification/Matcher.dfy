/** News-market matching: overlap scores and the best few markets above a threshold. */
module Matcher {
  import opened Model
  import opened TextMatch
  import opened TextRoundTrip

  datatype NewsMarketMatch = NewsMarketMatch(
    newsId: string, marketId: string, keywordScore: real, entityScore: real, finalScore: real)

  // ---------- Overlap ----------

  /** How many entries of left occur in right. */
  function Hits(left: seq<string>, right: seq<string>): nat {
    if left == [] then 0
    else Hits(left[..|left| - 1], right) + (if left[|left| - 1] in right then 1 else 0)
  }

  function Smaller(m: nat, n: nat): nat { if m <= n then m else n }

  function OverlapOf(left: seq<string>, right: seq<string>): real {
    if left == [] || right == [] then 0.0
    else Hits(left, right) as real / Smaller(|left|, |right|) as real
  }

  method OverlapScore(left: seq<string>, right: seq<string>) returns (r: real)
    ensures r == OverlapOf(left, right)
  {
    if |left| == 0 || |right| == 0 { return 0.0; }
    var set': set<string> := {};
    for i := 0 to |right|
      invariant forall w :: w in set' <==> w in right[..i]
    {
      set' := set' + {right[i]};
    }
    var overlap := 0;
    for i := 0 to |left|
      invariant overlap == Hits(left[..i], right)
    {
      assert left[..i + 1][..i] == left[..i];
      if left[i] in set' { overlap := overlap + 1; }
    }
    assert left[..|left|] == left;
    return overlap as real / Smaller(|left|, |right|) as real;
  }

  function Common(left: seq<string>, right: seq<string>): set<string> {
    set x | x in left && x in right
  }

  lemma CommonSnoc(left: seq<string>, x: string, right: seq<string>)
    requires x !in left
    ensures |Common(left + [x], right)| == |Common(left, right)| + (if x in right then 1 else 0)
  {
    assert Common(left + [x], right) == if x in right then Common(left, right) + {x} else Common(left, right);
  }

  lemma {:induction false} HitsAreCommon(left: seq<string>, right: seq<string>)
    requires Distinct(left)
    ensures Hits(left, right) == |Common(left, right)| && Hits(left, right) <= |left|
  {
    hide Common;
    if left == [] {
      NothingInCommon(right);
    } else {
      var init, last := left[..|left| - 1], left[|left| - 1];
      HitsAreCommon(init, right);
      assert left == init + [last] && last !in init;
      CommonSnoc(init, last, right);
    }
  }

  lemma NothingInCommon(right: seq<string>)
    ensures Common([], right) == {}
  {}

  lemma Ratio(c: nat, d: nat)
    requires 0 < d && c <= d
    ensures 0.0 <= c as real / d as real <= 1.0
  {}

  /** On lists without duplicates the overlap is symmetric and lies in [0, 1]. */
  lemma OverlapSymmetric(left: seq<string>, right: seq<string>)
    requires Distinct(left) && Distinct(right)
    ensures OverlapOf(left, right) == OverlapOf(right, left) && 0.0 <= OverlapOf(left, right) <= 1.0
  {
    HitsAreCommon(left, right);
    HitsAreCommon(right, left);
    assert Common(left, right) == Common(right, left);
    if left != [] && right != [] {
      Ratio(Hits(left, right), Smaller(|left|, |right|));
    }
  }

  /** Duplicates break both: a repeated word scores above 1. */
  lemma DuplicatesExceedOne(w: string)
    ensures OverlapOf([w, w], [w]) == 2.0
  {
    assert [w, w][..1] == [w] && [w][..0] == [];
    assert Hits([w], [w]) == 1;
  }

  // ---------- Scores ----------

  function NewsText(news: NewsArticle): string { news.title + " " + news.content }

  /** What the matcher extracts: the article's text with the stored lists appended. */
  function NewsKeywords(lower: char -> char, news: NewsArticle): seq<string> {
    KeywordsOf(lower, NewsText(news) + " " + Join(news.keywords))
  }

  function NewsEntities(lower: char -> char, news: NewsArticle): seq<string> {
    EntitiesOf(lower, NewsText(news) + " " + Join(news.entities))
  }

  function MatchOf(lower: char -> char, news: NewsArticle, m: Market): NewsMarketMatch {
    var keywordScore := OverlapOf(NewsKeywords(lower, news), KeywordsOf(lower, m.question));
    var entityScore := OverlapOf(NewsEntities(lower, news), EntitiesOf(lower, m.question));
    NewsMarketMatch(news.id, m.id, keywordScore, entityScore, 0.45 * keywordScore + 0.40 * entityScore)
  }

  /** When the fetcher has filled in an article's keywords and entities, the matcher
      works with exactly those. */
  lemma PrecomputedListsAreUsed(lower: char -> char, news: NewsArticle)
    requires KeepsTokens(lower)
    requires news.keywords == KeywordsOf(lower, NewsText(news)) && news.entities == EntitiesOf(lower, NewsText(news))
    ensures NewsKeywords(lower, news) == news.keywords && NewsEntities(lower, news) == news.entities
  {
    hide KeywordsOf, EntitiesOf;
    KeywordsRoundTrip(lower, NewsText(news));
    EntitiesRoundTrip(lower, NewsText(news));
  }

  /** Final scores lie in [0, 0.85] whatever the texts, so a threshold above 0.85
      matches nothing. */
  lemma ScoreRange(lower: char -> char, news: NewsArticle, m: Market)
    ensures 0.0 <= MatchOf(lower, news, m).finalScore <= 0.85
  {
    hide OverlapOf, Dedup, Terms, Expand;
    DedupDistinct(Terms(Tokens(Lower(lower, NewsText(news) + " " + Join(news.keywords)))));
    DedupDistinct(Terms(Tokens(Lower(lower, m.question))));
    DedupDistinct(Expand(KeywordsOf(lower, NewsText(news) + " " + Join(news.entities))));
    DedupDistinct(Expand(KeywordsOf(lower, m.question)));
    OverlapSymmetric(NewsKeywords(lower, news), KeywordsOf(lower, m.question));
    OverlapSymmetric(NewsEntities(lower, news), EntitiesOf(lower, m.question));
  }

  // ---------- The best few ----------

  lemma {:induction false} AllHit(left: seq<string>, right: seq<string>)
    requires forall w :: w in left ==> w in right
    ensures Hits(left, right) == |left|
  {
    if left != [] {
      AllHit(left[..|left| - 1], right);
    }
  }

  lemma {:induction false} NoneHit(left: seq<string>, right: seq<string>)
    requires forall w :: w in left ==> w !in right
    ensures Hits(left, right) == 0
  {
    if left != [] {
      NoneHit(left[..|left| - 1], right);
    }
  }

  ghost predicate Contained(left: seq<string>, right: seq<string>) {
    left != [] && |left| <= |right| && forall w :: w in left ==> w in right
  }

  ghost predicate Disjoint(left: seq<string>, right: seq<string>) {
    forall w :: w in left ==> w !in right
  }

  lemma OverlapEnds(left: seq<string>, right: seq<string>)
    ensures Contained(left, right) ==> OverlapOf(left, right) == 1.0
    ensures Disjoint(left, right) ==> OverlapOf(left, right) == 0.0
  {
    if Contained(left, right) {
      AllHit(left, right);
      hide Hits, Contained, Disjoint;
      Quotient(|left|);
    }
    if Disjoint(left, right) {
      NoneHit(left, right);
      hide Hits, Contained, Disjoint;
      if left != [] && right != [] { Quotient(Smaller(|left|, |right|)); }
    }
  }

  lemma Quotient(n: nat)
    requires n > 0
    ensures n as real / n as real == 1.0 && 0.0 / n as real == 0.0
  {}

  /** An article all of whose keywords the question has, but no entity, scores 0.45; one
      all of whose entities it has, but no keyword, 0.40; and both together 0.85. */
  lemma FullMatchScores(lower: char -> char, news: NewsArticle, m: Market)
    ensures var words, theirs := NewsKeywords(lower, news), KeywordsOf(lower, m.question);
            var entities, theirEntities := NewsEntities(lower, news), EntitiesOf(lower, m.question);
            var score := MatchOf(lower, news, m).finalScore;
            && (Contained(words, theirs) && Disjoint(entities, theirEntities) ==> score == 0.45)
            && (Disjoint(words, theirs) && Contained(entities, theirEntities) ==> score == 0.40)
            && (Contained(words, theirs) && Contained(entities, theirEntities) ==> score == 0.85)
            && (Disjoint(words, theirs) && Disjoint(entities, theirEntities) ==> score == 0.0)
  {
    hide OverlapOf, KeywordsOf, EntitiesOf, Contained, Disjoint, NewsKeywords, NewsEntities;
    OverlapEnds(NewsKeywords(lower, news), KeywordsOf(lower, m.question));
    OverlapEnds(NewsEntities(lower, news), EntitiesOf(lower, m.question));
  }

  /** Where nothing is configured, a match needs a score of 0.70 and three are kept. */
  lemma Defaults(threshold: real, topN: int)
    ensures Threshold(threshold) == if threshold > 0.0 then threshold else 0.70
    ensures TopN(topN) == if topN > 0 then topN else 3
  {}

  function Threshold(configured: real): real { if configured <= 0.0 then 0.70 else configured }
  function TopN(configured: int): nat { if configured <= 0 then 3 else configured }

  function Candidates(lower: char -> char, news: NewsArticle, markets: seq<Market>, threshold: real): seq<NewsMarketMatch> {
    if markets == [] then []
    else
      var m := MatchOf(lower, news, markets[|markets| - 1]);
      Candidates(lower, news, markets[..|markets| - 1], threshold) + (if m.finalScore >= threshold then [m] else [])
  }

  ghost predicate Descending(ms: seq<NewsMarketMatch>) {
    forall i, j :: 0 <= i < j < |ms| ==> ms[i].finalScore >= ms[j].finalScore
  }

  method SortByScore(ms: seq<NewsMarketMatch>) returns (sorted: seq<NewsMarketMatch>)
    ensures multiset(sorted) == multiset(ms) && |sorted| == |ms| && Descending(sorted)
  {
    sorted := [];
    for i := 0 to |ms|
      invariant |sorted| == i && multiset(sorted) == multiset(ms[..i]) && Descending(sorted)
    {
      sorted := InsertByScore(sorted, ms[i]);
      assert ms[..i + 1] == ms[..i] + [ms[i]];
    }
    assert ms[..|ms|] == ms;
  }

  method InsertByScore(ms: seq<NewsMarketMatch>, m: NewsMarketMatch) returns (r: seq<NewsMarketMatch>)
    requires Descending(ms)
    ensures multiset(r) == multiset(ms) + multiset{m} && |r| == |ms| + 1 && Descending(r)
  {
    hide Descending;
    var k := |ms|;
    while k > 0 && ms[k - 1].finalScore < m.finalScore
      invariant 0 <= k <= |ms|
      invariant k < |ms| ==> ms[k].finalScore < m.finalScore
    {
      k := k - 1;
    }
    r := ms[..k] + [m] + ms[k..];
    assert ms == ms[..k] + ms[k..];
    InsertionPoint(ms, m, k);
  }

  lemma InsertionPoint(ms: seq<NewsMarketMatch>, m: NewsMarketMatch, k: nat)
    requires Descending(ms) && k <= |ms|
    requires k > 0 ==> ms[k - 1].finalScore >= m.finalScore
    requires k < |ms| ==> ms[k].finalScore <= m.finalScore
    ensures Descending(ms[..k] + [m] + ms[k..])
  {}

  /** A best-first choice of at most n of all: together with what was omitted it is
      exactly all of them, and nothing omitted scores more than anything kept. */
  ghost predicate BestOf(all: seq<NewsMarketMatch>, n: nat, matches: seq<NewsMarketMatch>, omitted: seq<NewsMarketMatch>) {
    && multiset(matches) + multiset(omitted) == multiset(all) && |matches| == Smaller(n, |all|)
    && Descending(matches)
    && forall m, o :: m in matches && o in omitted ==> m.finalScore >= o.finalScore
  }

  /** The best few of exactly the markets at or above the threshold. */
  method Match(lower: char -> char, news: NewsArticle, markets: seq<Market>, threshold: real, topN: int)
    returns (matches: seq<NewsMarketMatch>, ghost omitted: seq<NewsMarketMatch>)
    ensures BestOf(Candidates(lower, news, markets, Threshold(threshold)), TopN(topN), matches, omitted)
    ensures |matches| == Smaller(TopN(topN), |Candidates(lower, news, markets, Threshold(threshold))|)
    ensures Descending(matches)
  {
    hide MatchOf, BestOf, Descending;
    var newsKeywords := Keywords(lower, NewsText(news) + " " + Join(news.keywords));
    var newsEntities := Entities(lower, NewsText(news) + " " + Join(news.entities));
    var found: seq<NewsMarketMatch> := [];
    for i := 0 to |markets|
      invariant found == Candidates(lower, news, markets[..i], Threshold(threshold))
    {
      assert markets[..i + 1][..i] == markets[..i];
      var match' := ScoreMarket(lower, news, newsKeywords, newsEntities, markets[i]);
      if match'.finalScore >= Threshold(threshold) {
        found := found + [match'];
      }
    }
    assert markets[..|markets|] == markets;
    var sorted := SortByScore(found);
    FirstAreBest(found, sorted, TopN(topN));
    matches, omitted := sorted, [];
    if |sorted| > TopN(topN) {
      matches, omitted := sorted[..TopN(topN)], sorted[TopN(topN)..];
    }
  }

  lemma FirstAreBest(all: seq<NewsMarketMatch>, sorted: seq<NewsMarketMatch>, n: nat)
    requires multiset(sorted) == multiset(all) && |sorted| == |all| && Descending(sorted)
    ensures if |sorted| > n then BestOf(all, n, sorted[..n], sorted[n..]) && Descending(sorted[..n])
            else BestOf(all, n, sorted, [])
  {
    if |sorted| > n {
      assert sorted == sorted[..n] + sorted[n..];
    } else {
      assert sorted == sorted + [];
    }
  }

  method ScoreMarket(lower: char -> char, news: NewsArticle, newsKeywords: seq<string>, newsEntities: seq<string>, m: Market)
    returns (r: NewsMarketMatch)
    requires newsKeywords == NewsKeywords(lower, news) && newsEntities == NewsEntities(lower, news)
    ensures r == MatchOf(lower, news, m)
  {
    var marketKeywords := Keywords(lower, m.question);
    var marketEntities := Entities(lower, m.question);
    var keywordScore := OverlapScore(newsKeywords, marketKeywords);
    var entityScore := OverlapScore(newsEntities, marketEntities);
    r := NewsMarketMatch(news.id, m.id, keywordScore, entityScore, 0.45 * keywordScore + 0.40 * entityScore);
  }

  lemma {:induction false} CandidatesClear(lower: char -> char, news: NewsArticle, markets: seq<Market>, threshold: real)
    ensures forall c :: c in Candidates(lower, news, markets, threshold) <==>
              c.finalScore >= threshold && exists m :: m in markets && c == MatchOf(lower, news, m)
  {
    hide MatchOf;
    if markets != [] {
      var init, last := markets[..|markets| - 1], markets[|markets| - 1];
      CandidatesClear(lower, news, init, threshold);
      assert markets == init + [last];
      assert forall m :: m in markets <==> m in init || m == last;
    }
  }

  // ---------- No market twice ----------

  ghost predicate DistinctMarkets(ms: seq<NewsMarketMatch>) {
    forall i, j :: 0 <= i < j < |ms| ==> ms[i].marketId != ms[j].marketId
  }

  lemma {:induction false} CandidatesDistinct(lower: char -> char, news: NewsArticle, markets: seq<Market>, threshold: real)
    requires forall i, j :: 0 <= i < j < |markets| ==> markets[i].id != markets[j].id
    ensures DistinctMarkets(Candidates(lower, news, markets, threshold))
  {
    hide MatchOf;
    if markets != [] {
      var init, last := markets[..|markets| - 1], markets[|markets| - 1];
      CandidatesDistinct(lower, news, init, threshold);
      CandidatesClear(lower, news, init, threshold);
      forall c | c in Candidates(lower, news, init, threshold)
        ensures c.marketId != MatchOf(lower, news, last).marketId
      {
        var m :| m in init && c == MatchOf(lower, news, m);
        MatchIsAbout(lower, news, m);
        MatchIsAbout(lower, news, last);
      }
    }
  }

  lemma MatchIsAbout(lower: char -> char, news: NewsArticle, m: Market)
    ensures MatchOf(lower, news, m).marketId == m.id
  {}

  lemma {:induction false} AtMostOnce(ms: seq<NewsMarketMatch>, m: NewsMarketMatch)
    requires DistinctMarkets(ms)
    ensures multiset(ms)[m] <= 1
  {
    if ms != [] {
      var init := ms[..|ms| - 1];
      AtMostOnce(init, m);
      assert ms == init + [ms[|ms| - 1]];
    }
  }

  lemma Repeated(ms: seq<NewsMarketMatch>, i: nat, j: nat)
    requires i < j < |ms|
    ensures multiset(ms)[ms[i]] >= if ms[i] == ms[j] then 2 else 1
  {
    assert ms == ms[..j] + ms[j..];
    assert ms[i] in ms[..j] && ms[j] in ms[j..];
  }

  /** A best-first choice among matches of different markets has no market twice. */
  lemma BestOfDistinct(all: seq<NewsMarketMatch>, n: nat, matches: seq<NewsMarketMatch>, omitted: seq<NewsMarketMatch>)
    requires BestOf(all, n, matches, omitted) && DistinctMarkets(all)
    ensures DistinctMarkets(matches)
  {
    forall i, j | 0 <= i < j < |matches|
      ensures matches[i].marketId != matches[j].marketId
    {
      var x, y := matches[i], matches[j];
      Repeated(matches, i, j);
      AtMostOnce(all, x);
      assert x != y && x in multiset(all) && y in multiset(all);
      var a, b :| 0 <= a < |all| && 0 <= b < |all| && all[a] == x && all[b] == y;
    }
  }
}
