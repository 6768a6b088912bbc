/** The in-memory store. Listings come out of its maps in arbitrary order. */
module Store {
  import opened Model
  import opened Sets
  import opened Sums
  import opened Ledger
  import opened LedgerTheorems

  /** What a positive limit leaves of n values. */
  function Capped(n: nat, limit: int): (r: nat)
    ensures r <= n && (limit > 0 ==> r <= limit) && (r == n || r == limit)
  {
    if limit <= 0 || n <= limit then n else limit
  }

  /** Values of m under distinct keys, as many as the limit leaves. */
  ghost predicate IsListing<V>(m: map<string, V>, limit: int, out: seq<V>, keys: seq<string>) {
    && |out| == |keys| == Capped(|m|, limit)
    && (forall i :: 0 <= i < |keys| ==> keys[i] in m && out[i] == m[keys[i]])
    && (forall i, j :: 0 <= i < j < |keys| ==> keys[i] != keys[j])
  }

  /** All values of a map in some order, cut off at a positive limit. */
  method Listing<V>(m: map<string, V>, limit: int) returns (out: seq<V>, ghost keys: seq<string>)
    ensures IsListing(m, limit, out, keys) && |out| == Capped(|m|, limit)
  {
    out, keys := [], [];
    var rest := m.Keys;
    while rest != {}
      invariant rest <= m.Keys && |out| == |keys| == |m| - |rest|
      invariant forall i :: 0 <= i < |keys| ==> keys[i] in m.Keys - rest && out[i] == m[keys[i]]
      invariant forall i, j :: 0 <= i < j < |keys| ==> keys[i] != keys[j]
    {
      var k :| k in rest;
      out, keys, rest := out + [m[k]], keys + [k], rest - {k};
    }
    if limit > 0 && |out| > limit {
      out, keys := out[..limit], keys[..limit];
    }
  }

  // ---------- Signals ----------

  const MAX_AI_SIGNAL_LIST := 1000

  /** An empty identifier asks for any market or any news. */
  predicate About(s: StoredSignal, marketId: string, newsId: string) {
    (marketId == "" || s.marketId == marketId) && (newsId == "" || s.newsId == newsId)
  }

  function AboutIds(signals: map<string, StoredSignal>, marketId: string, newsId: string): set<string> {
    set k | k in signals && About(signals[k], marketId, newsId)
  }

  ghost predicate NewestOf(signals: map<string, StoredSignal>, listed: set<string>, k: string)
    requires listed <= signals.Keys
  {
    k in listed && forall j :: j in listed ==> signals[j].createdAt <= signals[k].createdAt
  }

  ghost predicate LatestOf(signals: map<string, StoredSignal>, ids: set<string>, listed: set<string>, r: Option<AISignal>)
    requires ids <= signals.Keys
  {
    && listed <= ids && |listed| == Capped(|ids|, MAX_AI_SIGNAL_LIST)
    && (r.None? <==> listed == {})
    && (r.Some? ==> exists k :: NewestOf(signals, listed, k) && signals[k].signal == r.value)
  }

  /** r is a possible answer to "the latest signal about this market and news": the
      newest of at most 1000 listed, any of them when several are equally new. */
  ghost predicate PossibleLatest(signals: map<string, StoredSignal>, marketId: string, newsId: string, r: Option<AISignal>) {
    exists listed :: LatestOf(signals, AboutIds(signals, marketId, newsId), listed, r)
  }

  /** While no more than 1000 signals are about a market and news, the lookup finds the
      signal of id under every listing order exactly when every signal about them that
      is as new as the newest says the same. */
  lemma LatestIsThisIff(signals: map<string, StoredSignal>, marketId: string, newsId: string, id: string)
    requires id in AboutIds(signals, marketId, newsId)
    requires |AboutIds(signals, marketId, newsId)| <= 1000
    ensures (forall r :: PossibleLatest(signals, marketId, newsId, r) ==> r == Some(signals[id].signal)) <==>
              (forall k :: NewestOf(signals, AboutIds(signals, marketId, newsId), k) ==>
                 signals[k].signal == signals[id].signal)
  {
    var ids := AboutIds(signals, marketId, newsId);
    if k :| NewestOf(signals, ids, k) && signals[k].signal != signals[id].signal {
      assert LatestOf(signals, ids, ids, Some(signals[k].signal));
      assert PossibleLatest(signals, marketId, newsId, Some(signals[k].signal));
    } else {
      forall r | PossibleLatest(signals, marketId, newsId, r)
        ensures r == Some(signals[id].signal)
      {
        var listed :| LatestOf(signals, ids, listed, r);
        FullSubset(listed, ids);
        assert id in listed;
      }
    }
  }

  // ---------- Articles ----------

  predicate HashKnown(articles: map<string, NewsArticle>, hash: string) {
    exists k :: k in articles && articles[k].hash == hash
  }

  function AddArticle(articles: map<string, NewsArticle>, a: NewsArticle): map<string, NewsArticle> {
    if HashKnown(articles, a.hash) then articles else articles[a.id := a]
  }

  function AddArticles(articles: map<string, NewsArticle>, batch: seq<NewsArticle>): map<string, NewsArticle>
    decreases |batch|
  {
    if batch == [] then articles else AddArticles(AddArticle(articles, batch[0]), batch[1..])
  }

  ghost predicate DistinctHashes(articles: map<string, NewsArticle>) {
    forall j, k :: j in articles && k in articles && j != k ==> articles[j].hash != articles[k].hash
  }

  /** No two stored articles ever share a content hash, and no article is stored
      under a second identifier. */
  lemma {:induction false} AddArticlesKeepsHashesDistinct(articles: map<string, NewsArticle>, batch: seq<NewsArticle>)
    requires DistinctHashes(articles)
    ensures DistinctHashes(AddArticles(articles, batch))
    decreases |batch|
  {
    if batch != [] {
      AddArticlesKeepsHashesDistinct(AddArticle(articles, batch[0]), batch[1..]);
    }
  }

  lemma NothingOpen()
    ensures |OpenIds(map[])| == 0 && Sum(map[], OpenExposure) == 0.0 && Sum(map[], OpenPnLOf) == 0.0
    ensures Sum(map[], OpenCost) == 0.0 && Sum(map[], RealizedOf) == 0.0
  {}

  lemma OpenIdsKnown(m: map<string, Position>)
    ensures OpenIds(m) <= m.Keys
  {}

  lemma {:induction false} DistinctCount(keys: seq<string>, s: set<string>)
    requires forall i, j :: 0 <= i < j < |keys| ==> keys[i] != keys[j]
    requires forall k :: k in keys <==> k in s
    ensures |keys| == |s|
    decreases |keys|
  {
    if keys == [] {
      assert s == {};
    } else {
      assert forall k :: k in keys[1..] ==> k in keys && k != keys[0];
      DistinctCount(keys[1..], s - {keys[0]});
    }
  }

  /** The market side of the store. */
  datatype Venue = Venue(markets: map<string, Market>, liveStates: map<string, LiveMarketState>)

  /** A stored market with the latest streamed state laid over it. */
  function Overlaid(liveStates: map<string, LiveMarketState>, m: Market): Market {
    if m.id in liveStates then ApplyLiveState(m, liveStates[m.id]) else m
  }

  function LiveMarketOf(venue: Venue, marketId: string): Market
    requires marketId in venue.markets
  {
    Overlaid(venue.liveStates, venue.markets[marketId])
  }

  /** Each figure of a report as its own sum over the maps. */
  ghost predicate Reports(state: PortfolioState, startingCash: real, trades: map<string, Trade>,
                          positions: map<string, Position>)
  {
    && state.cashUSD == startingCash - Sum(trades, OpenCost)
    && state.exposureUSD == Sum(positions, OpenExposure)
    && state.openPnLUSD == Sum(positions, OpenPnLOf)
    && state.realizedPnLUSD == Sum(trades, RealizedOf)
    && state.openPositions == |OpenIds(positions)|
    && state.portfolioValueUSD == state.cashUSD + state.exposureUSD + state.openPnLUSD
    && state.dailyPnLUSD == state.realizedPnLUSD + state.openPnLUSD
  }

  class MemoryStore {
    var markets: map<string, Market>
    var liveStates: map<string, LiveMarketState>
    var articles: map<string, NewsArticle>
    var signals: map<string, StoredSignal>
    var probs: map<string, ProbabilityDecision>
    var risks: map<string, RiskDecision>
    var trades: map<string, Trade>
    var positions: map<string, Position>

    ghost function Books(): Ledger
      reads this
    {
      Ledger(trades, positions)
    }

    constructor ()
      ensures markets == map[] && liveStates == map[] && articles == map[]
      ensures signals == map[] && probs == map[] && risks == map[]
      ensures Books() == EMPTY
    {
      markets, liveStates, articles := map[], map[], map[];
      signals, probs, risks := map[], map[], map[];
      trades, positions := map[], map[];
    }

    ghost function AllMarkets(): Venue
      reads this
    {
      Venue(markets, liveStates)
    }

    function LiveMarket(m: Market): Market
      reads this
    {
      Overlaid(liveStates, m)
    }

    method SaveNewsArticles(batch: seq<NewsArticle>)
      modifies this`articles
      ensures articles == AddArticles(old(articles), batch)
    {
      assert batch[0..] == batch;
      for n := 0 to |batch|
        invariant AddArticles(articles, batch[n..]) == AddArticles(old(articles), batch)
      {
        var exists', rest := false, articles.Keys;
        while rest != {}
          invariant rest <= articles.Keys
          invariant !exists' ==> forall k :: k in articles.Keys - rest ==> articles[k].hash != batch[n].hash
          invariant exists' ==> HashKnown(articles, batch[n].hash)
        {
          var k :| k in rest;
          if articles[k].hash == batch[n].hash {
            exists' := true;
            break;
          }
          rest := rest - {k};
        }
        assert batch[n..][1..] == batch[n + 1..];
        if !exists' {
          articles := articles[batch[n].id := batch[n]];
        }
      }
    }

    method SaveAISignal(id: string, s: StoredSignal)
      modifies this`signals
      ensures signals == old(signals)[id := s]
    {
      signals := signals[id := s];
    }

    method ListAISignals(marketId: string, newsId: string) returns (out: seq<StoredSignal>, ghost keys: seq<string>)
      ensures var ids := AboutIds(signals, marketId, newsId);
              && |out| == |keys| == Capped(|ids|, MAX_AI_SIGNAL_LIST)
              && (forall i :: 0 <= i < |keys| ==> keys[i] in ids && out[i] == signals[keys[i]])
              && (forall i, j :: 0 <= i < j < |keys| ==> keys[i] != keys[j])
    {
      out, keys := [], [];
      var rest := signals.Keys;
      while rest != {}
        invariant rest <= signals.Keys && |out| == |keys|
        invariant forall i :: 0 <= i < |keys| ==>
                    keys[i] in AboutIds(signals, marketId, newsId) - rest && out[i] == signals[keys[i]]
        invariant forall k :: k in AboutIds(signals, marketId, newsId) ==> k in rest || k in keys
        invariant forall i, j :: 0 <= i < j < |keys| ==> keys[i] != keys[j]
      {
        var k :| k in rest;
        if About(signals[k], marketId, newsId) {
          out, keys := out + [signals[k]], keys + [k];
        }
        rest := rest - {k};
      }
      DistinctCount(keys, AboutIds(signals, marketId, newsId));
      if |out| > MAX_AI_SIGNAL_LIST {
        out, keys := out[..MAX_AI_SIGNAL_LIST], keys[..MAX_AI_SIGNAL_LIST];
      }
    }

    /** The first of the newest signals listed. */
    method LatestAISignal(marketId: string, newsId: string) returns (r: Option<AISignal>)
      ensures PossibleLatest(signals, marketId, newsId, r)
    {
      var items, keys := ListAISignals(marketId, newsId);
      ghost var ids, listed := AboutIds(signals, marketId, newsId), set k | k in keys;
      DistinctCount(keys, listed);
      if |items| == 0 {
        assert LatestOf(signals, ids, listed, None);
        return None;
      }
      assert keys[0] in listed;
      var latest := 0;
      for i := 1 to |items|
        invariant 0 <= latest < i
        invariant forall j :: 0 <= j < i ==> items[j].createdAt <= items[latest].createdAt
      {
        if items[i].createdAt > items[latest].createdAt {
          latest := i;
        }
      }
      assert NewestOf(signals, listed, keys[latest]);
      assert LatestOf(signals, ids, listed, Some(items[latest].signal));
      return Some(items[latest].signal);
    }

    method SaveTrade(t: Trade)
      modifies this`trades
      ensures trades == old(trades)[t.id := t]
    {
      trades := trades[t.id := t];
    }

    method SavePosition(p: Position)
      modifies this`positions
      ensures positions == old(positions)[p.id := p]
    {
      positions := positions[p.id := p];
    }

    /** The open positions, each exactly once, in arbitrary order. */
    method ListOpenPositions() returns (out: seq<Position>, ghost keys: seq<string>)
      ensures |out| == OpenCount(Books()) && |keys| == |out|
      ensures forall i :: 0 <= i < |keys| ==> keys[i] in OpenIds(positions) && out[i] == positions[keys[i]]
      ensures forall i, j :: 0 <= i < j < |keys| ==> keys[i] != keys[j]
      ensures forall k :: k in OpenIds(positions) ==> k in keys
    {
      out, keys := [], [];
      var rest := positions.Keys;
      while rest != {}
        invariant rest <= positions.Keys && |out| == |keys|
        invariant forall i :: 0 <= i < |keys| ==> keys[i] in OpenIds(positions) - rest && out[i] == positions[keys[i]]
        invariant forall i, j :: 0 <= i < j < |keys| ==> keys[i] != keys[j]
        invariant forall k :: k in OpenIds(positions) ==> k in rest || k in keys
      {
        var k :| k in rest;
        if positions[k].status.Open? {
          out, keys := out + [positions[k]], keys + [k];
        }
        rest := rest - {k};
      }
      DistinctCount(keys, OpenIds(positions));
    }

    /** Cash, exposure and profit are recomputed by folding over both maps; whatever
        order the maps yield, the result is the order-free portfolio. */
    method Portfolio(startingCash: real) returns (state: PortfolioState)
      ensures state == PortfolioOf(Books(), startingCash)
      ensures Reports(state, startingCash, trades, positions)
    {
      hide Sum, OpenIds;
      var cash, exposure, openPnL, realized, count := startingCash, 0.0, 0.0, 0.0, 0;
      NothingOpen();
      var rest := positions.Keys;
      ghost var done: map<string, Position> := map[];
      while rest != {}
        invariant rest <= positions.Keys && done.Keys == positions.Keys - rest
        invariant forall k :: k in done ==> done[k] == positions[k]
        invariant exposure == Sum(done, OpenExposure) && openPnL == Sum(done, OpenPnLOf)
        invariant count == |OpenIds(done)|
      {
        var k :| k in rest;
        var p := positions[k];
        SumPut(done, k, p, OpenExposure);
        SumPut(done, k, p, OpenPnLOf);
        OpenIdsPut(done, k, p);
        OpenIdsKnown(done);
        if p.status.Open? {
          exposure := exposure + p.exposureUSD;
          openPnL := openPnL + p.unrealizedPnLUSD;
          count := count + 1;
        }
        rest, done := rest - {k}, done[k := p];
      }
      assert done == positions;
      var left := trades.Keys;
      ghost var past: map<string, Trade> := map[];
      while left != {}
        invariant left <= trades.Keys && past.Keys == trades.Keys - left
        invariant forall k :: k in past ==> past[k] == trades[k]
        invariant cash == startingCash - Sum(past, OpenCost) && realized == Sum(past, RealizedOf)
      {
        var k :| k in left;
        var t := trades[k];
        SumPut(past, k, t, OpenCost);
        SumPut(past, k, t, RealizedOf);
        if t.status.Open? {
          cash := cash - (t.sizeUSD + t.feesUSD);
        }
        realized := realized + t.realizedPnLUSD;
        left, past := left - {k}, past[k := t];
      }
      assert past == trades;
      var daily := realized + openPnL;
      state := PortfolioState(cash, cash + exposure + openPnL, exposure, openPnL, realized, daily,
                              if startingCash > 0.0 then daily / startingCash else 0.0, count);
    }
  }
}
