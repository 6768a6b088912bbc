/** The risk engine: Kelly sizing under exposure caps, and what its approval
    guarantees once the order has been executed. */
module Risk {
  import opened Model
  import opened Sums
  import opened OrderBook
  import opened Ledger
  import opened LedgerTheorems
  import opened Store

  function KellyFraction(p: real, cost: real): real {
    if cost <= 0.0 || cost >= 1.0 then -1.0
    else
      var b := (1.0 - cost) / cost;
      var q := 1.0 - p;
      (b * p - q) / b
  }

  /** Exposure weights of one position, by market and by category. */
  function InMarket(marketId: string): Position -> real {
    (p: Position) => if p.status.Open? && p.marketId == marketId then p.exposureUSD else 0.0
  }

  function InCategory(markets: map<string, Market>, category: string): Position -> real {
    (p: Position) =>
      if p.status.Open? && p.marketId in markets && markets[p.marketId].category == category then p.exposureUSD
      else 0.0
  }

  ghost function MarketExposure(l: Ledger, marketId: string): real {
    Sum(l.positions, InMarket(marketId))
  }

  ghost function CategoryExposure(l: Ledger, markets: map<string, Market>, category: string): real {
    Sum(l.positions, InCategory(markets, category))
  }

  datatype Verdict = Rejected(reason: string) | Approved(sizeUSD: real)

  function TargetSize(cfg: Config, value: real, kelly: real, requested: real): real {
    var size := value * Min(kelly * cfg.kellyFraction, cfg.maxPositionPerMarketPct);
    if 0.0 < requested < size then requested else size
  }

  function MarketCap(cfg: Config, value: real): real { cfg.maxPositionPerMarketPct * value }
  function CategoryCap(cfg: Config, value: real): real { cfg.maxCategoryExposurePct * value }

  /** The checks in order; market is the market with its live state. */
  ghost function VerdictFor(cfg: Config, markets: map<string, Market>, l: Ledger, prob: ProbabilityDecision,
                            market: Market, requested: real, now: real): Verdict
  {
    var portfolio := PortfolioOf(l, cfg.startingBalanceUSD);
    var value := portfolio.portfolioValueUSD;
    var inMarket, inCategory := MarketExposure(l, market.id), CategoryExposure(l, markets, market.category);
    var kelly := KellyFraction(prob.ourProbability, prob.executablePrice);
    var size := TargetSize(cfg, value, kelly, requested);
    if portfolio.dailyPnLPct <= -cfg.maxDailyLossPct then Rejected("daily loss exceeded")
    else if OpenCount(l) >= cfg.maxTotalOpenPositions then Rejected("max total open positions reached")
    else if market.spread > cfg.marketMaxSpread then Rejected("spread too wide")
    else if market.liquidity < cfg.marketMinLiquidityUSD then Rejected("insufficient liquidity")
    else if market.endTime.Some? && market.endTime.value - now < cfg.marketMinHoursToExpiry then
      Rejected("market too close to expiry")
    else if inMarket >= MarketCap(cfg, value) then Rejected("market exposure too high")
    else if inCategory >= CategoryCap(cfg, value) then Rejected("category exposure too high")
    else if kelly <= 0.0 then Rejected("kelly sizing non-positive")
    else if inMarket + size > MarketCap(cfg, value) then Rejected("market exposure too high")
    else if inCategory + size > CategoryCap(cfg, value) then Rejected("category exposure too high")
    else if ImpactOf(size, prob.executablePrice, market.asks) > cfg.maxOrderbookImpactPct then
      Rejected("orderbook impact too high")
    else Approved(size)
  }

  /** The exposures the engine accumulates over the listed open positions. */
  method Exposures(store: MemoryStore, open: seq<Position>, ghost keys: seq<string>, marketId: string, category: string)
    returns (inMarket: real, inCategory: real)
    requires |open| == |keys|
    requires forall i :: 0 <= i < |keys| ==> keys[i] in OpenIds(store.positions) && open[i] == store.positions[keys[i]]
    requires forall i, j :: 0 <= i < j < |keys| ==> keys[i] != keys[j]
    requires forall k :: k in OpenIds(store.positions) ==> k in keys
    ensures inMarket == MarketExposure(store.Books(), marketId)
    ensures inCategory == CategoryExposure(store.Books(), store.markets, category)
  {
    hide Sum;
    inMarket, inCategory := 0.0, 0.0;
    ghost var w, v := InMarket(marketId), InCategory(store.markets, category);
    ghost var done: map<string, Position> := map[];
    EmptySum(w);
    EmptySum(v);
    for i := 0 to |open|
      invariant inMarket == Sum(done, w) && inCategory == Sum(done, v)
      invariant forall k :: k in done <==> exists j :: 0 <= j < i && keys[j] == k
      invariant forall k :: k in done ==> k in store.positions && done[k] == store.positions[k]
    {
      var p := open[i];
      SumPut(done, keys[i], p, w);
      SumPut(done, keys[i], p, v);
      if p.marketId == marketId {
        inMarket := inMarket + p.exposureUSD;
      }
      if p.marketId in store.markets && store.markets[p.marketId].category == category {
        inCategory := inCategory + p.exposureUSD;
      }
      done := done[keys[i] := p];
    }
    assert forall k :: k in OpenIds(store.positions) ==> k in done;
    assert forall k :: k in store.positions && store.positions[k].status.Open? ==> k in OpenIds(store.positions);
    SumSupport(store.positions, done, w);
    SumSupport(store.positions, done, v);
  }

  lemma EmptySum(w: Position -> real)
    ensures Sum(map[], w) == 0.0
  {}

  method Evaluate(store: MemoryStore, cfg: Config, newId: set<string> -> string, probId: string, requested: real, now: real)
    returns (r: Result<RiskDecision>)
    requires FreshIds(newId)
    modifies store`risks
    ensures r.Err? <==> probId !in store.probs || store.probs[probId].marketId !in store.markets
    ensures r.Err? ==> store.risks == old(store.risks)
    ensures r.Ok? ==> r.value.id !in old(store.risks) && store.risks == old(store.risks)[r.value.id := r.value]
    ensures r.Ok? ==>
              var prob := store.probs[probId];
              var market := store.LiveMarket(store.markets[prob.marketId]);
              && r.value.marketId == market.id && r.value.probabilityDecisionId == prob.id
              && match VerdictFor(cfg, store.markets, store.Books(), prob, market, requested, now)
                 case Rejected(reason) => !r.value.approved && r.value.rejectReason == reason
                 case Approved(size) => r.value.approved && r.value.positionSizeUSD == size
  {
    hide Sum, Reports, PortfolioOf, MarketExposure, CategoryExposure, OpenCount, KellyFraction, TargetSize, ImpactOf,
      MarketCap, CategoryCap;
    if probId !in store.probs {
      return Err("no rows in result set");
    }
    var prob := store.probs[probId];
    if prob.marketId !in store.markets {
      return Err("no rows in result set");
    }
    var market := store.LiveMarket(store.markets[prob.marketId]);
    var portfolio := store.Portfolio(cfg.startingBalanceUSD);
    var rejection, size := "", 0.0;
    if portfolio.dailyPnLPct <= -cfg.maxDailyLossPct {
      rejection := "daily loss exceeded";
    } else {
      var open, keys := store.ListOpenPositions();
      if |open| >= cfg.maxTotalOpenPositions {
        rejection := "max total open positions reached";
      } else if market.spread > cfg.marketMaxSpread {
        rejection := "spread too wide";
      } else if market.liquidity < cfg.marketMinLiquidityUSD {
        rejection := "insufficient liquidity";
      } else if market.endTime.Some? && market.endTime.value - now < cfg.marketMinHoursToExpiry {
        rejection := "market too close to expiry";
      } else {
        var inMarket, inCategory := Exposures(store, open, keys, market.id, market.category);
        var maxMarket := MarketCap(cfg, portfolio.portfolioValueUSD);
        var maxCategory := CategoryCap(cfg, portfolio.portfolioValueUSD);
        if inMarket >= maxMarket {
          rejection := "market exposure too high";
        } else if inCategory >= maxCategory {
          rejection := "category exposure too high";
        } else {
          var kelly := KellyFraction(prob.ourProbability, prob.executablePrice);
          size := TargetSize(cfg, portfolio.portfolioValueUSD, kelly, requested);
          if kelly <= 0.0 {
            rejection := "kelly sizing non-positive";
          } else if inMarket + size > maxMarket {
            rejection := "market exposure too high";
          } else if inCategory + size > maxCategory {
            rejection := "category exposure too high";
          } else {
            var impact := PriceImpact(size, prob.executablePrice, market.asks);
            if impact > cfg.maxOrderbookImpactPct {
              rejection := "orderbook impact too high";
            }
          }
        }
      }
    }
    var approved := rejection == "";
    var d := RiskDecision(newId(store.risks.Keys), market.id, prob.id, approved, if approved then size else 0.0, rejection);
    store.risks := store.risks[d.id := d];
    return Ok(d);
  }

  // ---------- What approval means ----------

  /** Expected growth per dollar: the edge over the price, scaled by the price's own
      distance from one. */
  lemma KellyIdentity(p: real, cost: real)
    ensures KellyFraction(p, cost) > 0.0 <==> 0.0 < cost < 1.0 && p > cost
    ensures 0.0 < cost < 1.0 ==> KellyFraction(p, cost) == (p - cost) / (1.0 - cost)
  {}

  /** The percentages and multipliers a deployment configures. */
  ghost predicate PositiveConfig(cfg: Config) {
    cfg.kellyFraction > 0.0 && cfg.maxPositionPerMarketPct > 0.0
  }

  lemma ExposuresNonNegative(l: Ledger, markets: map<string, Market>, marketId: string, category: string)
    requires Sound(l)
    ensures MarketExposure(l, marketId) >= 0.0 && CategoryExposure(l, markets, category) >= 0.0
  {
    assert forall k :: k in l.positions ==> PositionOk(k, l.positions[k]);
    SumNonNegative(l.positions, InMarket(marketId));
    SumNonNegative(l.positions, InCategory(markets, category));
  }

  lemma SizeWithin(cfg: Config, value: real, kelly: real, requested: real)
    requires PositiveConfig(cfg) && MarketCap(cfg, value) > 0.0 && kelly > 0.0
    ensures value > 0.0 && 0.0 < TargetSize(cfg, value, kelly, requested) <= value * kelly * cfg.kellyFraction
  {}

  /** An approved order has a price strictly between 0 and 1, so that sizing an empty
      book divides by a non-zero price; it has a positive edge, and its size is
      positive and at most the Kelly share of the portfolio. */
  lemma ApprovedBounds(cfg: Config, markets: map<string, Market>, l: Ledger, prob: ProbabilityDecision,
                       market: Market, requested: real, now: real)
    requires Sound(l) && PositiveConfig(cfg)
    requires VerdictFor(cfg, markets, l, prob, market, requested, now).Approved?
    ensures var size := VerdictFor(cfg, markets, l, prob, market, requested, now).sizeUSD;
            var value := PortfolioOf(l, cfg.startingBalanceUSD).portfolioValueUSD;
            var p, c := prob.ourProbability, prob.executablePrice;
            && 0.0 < c < 1.0 && p > c && value > 0.0
            && 0.0 < size <= value * ((p - c) / (1.0 - c)) * cfg.kellyFraction
  {
    hide Sum, PortfolioOf, MarketExposure, CategoryExposure, OpenCount, KellyFraction, ImpactOf, Sound,
      MarketCap, CategoryCap, TargetSize;
    var value := PortfolioOf(l, cfg.startingBalanceUSD).portfolioValueUSD;
    var kelly := KellyFraction(prob.ourProbability, prob.executablePrice);
    KellyIdentity(prob.ourProbability, prob.executablePrice);
    ExposuresNonNegative(l, markets, market.id, market.category);
    SizeWithin(cfg, value, kelly, requested);
  }

  function KellyShare(cfg: Config, value: real, kelly: real): real { value * (kelly * cfg.kellyFraction) }

  function Smallest(kellyShare: real, marketCap: real, requested: real): real {
    var most := Min(kellyShare, marketCap);
    if requested > 0.0 then Min(most, requested) else most
  }

  lemma TargetIsSmallest(cfg: Config, value: real, kelly: real, requested: real)
    requires value > 0.0
    ensures TargetSize(cfg, value, kelly, requested)
         == Smallest(KellyShare(cfg, value, kelly), MarketCap(cfg, value), requested)
  {
    var share, cap := kelly * cfg.kellyFraction, cfg.maxPositionPerMarketPct;
    Scaled(value, share, cap);
  }

  lemma Scaled(value: real, x: real, y: real)
    requires value > 0.0
    ensures value * Min(x, y) == Min(value * x, value * y)
  {
    if x <= y {
      assert value * (y - x) >= 0.0;
    } else {
      assert value * (x - y) > 0.0;
    }
  }

  /** size is the smallest of the Kelly share of a value, the market's percentage of it,
      and the requested size when one is requested. */
  ghost predicate SmallestOf(cfg: Config, value: real, kelly: real, requested: real, size: real) {
    && size <= value * (kelly * cfg.kellyFraction) && size <= cfg.maxPositionPerMarketPct * value
    && (requested > 0.0 ==> size <= requested)
    && (|| size == value * (kelly * cfg.kellyFraction) || size == cfg.maxPositionPerMarketPct * value
        || (requested > 0.0 && size == requested))
  }

  /** The approved size is that smallest amount, of the portfolio value. */
  lemma ApprovedSizeIsSmallest(cfg: Config, markets: map<string, Market>, l: Ledger, prob: ProbabilityDecision,
                               market: Market, requested: real, now: real)
    requires Sound(l) && PositiveConfig(cfg)
    requires VerdictFor(cfg, markets, l, prob, market, requested, now).Approved?
    ensures var p, c := prob.ourProbability, prob.executablePrice;
            0.0 < c < 1.0 && KellyFraction(p, c) == (p - c) / (1.0 - c)
    ensures SmallestOf(cfg, PortfolioOf(l, cfg.startingBalanceUSD).portfolioValueUSD,
                       KellyFraction(prob.ourProbability, prob.executablePrice), requested,
                       VerdictFor(cfg, markets, l, prob, market, requested, now).sizeUSD)
  {
    hide *;
    ApprovedSizeOf(cfg, markets, l, prob, market, requested, now);
    WrittenOut(cfg, PortfolioOf(l, cfg.startingBalanceUSD).portfolioValueUSD,
               KellyFraction(prob.ourProbability, prob.executablePrice), requested);
  }

  lemma WrittenOut(cfg: Config, value: real, kelly: real, requested: real)
    ensures SmallestOf(cfg, value, kelly, requested,
                       Smallest(KellyShare(cfg, value, kelly), MarketCap(cfg, value), requested))
  {}

  lemma ApprovedSizeOf(cfg: Config, markets: map<string, Market>, l: Ledger, prob: ProbabilityDecision,
                       market: Market, requested: real, now: real)
    requires Sound(l) && PositiveConfig(cfg)
    requires VerdictFor(cfg, markets, l, prob, market, requested, now).Approved?
    ensures var p, c := prob.ourProbability, prob.executablePrice;
            0.0 < c < 1.0 && KellyFraction(p, c) == (p - c) / (1.0 - c)
    ensures var value := PortfolioOf(l, cfg.startingBalanceUSD).portfolioValueUSD;
            var kelly := KellyFraction(prob.ourProbability, prob.executablePrice);
            VerdictFor(cfg, markets, l, prob, market, requested, now).sizeUSD
            == Smallest(KellyShare(cfg, value, kelly), MarketCap(cfg, value), requested)
  {
    hide Sum, PortfolioOf, MarketExposure, CategoryExposure, OpenCount, KellyFraction, ImpactOf, Sound,
      MarketCap, CategoryCap, TargetSize, Smallest, KellyShare;
    var value := PortfolioOf(l, cfg.startingBalanceUSD).portfolioValueUSD;
    KellyIdentity(prob.ourProbability, prob.executablePrice);
    ApprovedBounds(cfg, markets, l, prob, market, requested, now);
    var kelly := KellyFraction(prob.ourProbability, prob.executablePrice);
    TargetIsSmallest(cfg, value, kelly, requested);
  }

  /** Market and category within their configured percentages of the portfolio value. */
  ghost predicate WithinCaps(cfg: Config, markets: map<string, Market>, l: Ledger, marketId: string, category: string) {
    var value := PortfolioOf(l, cfg.startingBalanceUSD).portfolioValueUSD;
    && MarketExposure(l, marketId) <= cfg.maxPositionPerMarketPct * value
    && CategoryExposure(l, markets, category) <= cfg.maxCategoryExposurePct * value
  }

  lemma WithinCapsIff(cfg: Config, markets: map<string, Market>, l: Ledger, marketId: string, category: string)
    ensures var value := PortfolioOf(l, cfg.startingBalanceUSD).portfolioValueUSD;
            WithinCaps(cfg, markets, l, marketId, category) <==>
              && MarketExposure(l, marketId) <= MarketCap(cfg, value)
              && CategoryExposure(l, markets, category) <= CategoryCap(cfg, value)
  {
    hide PortfolioOf, MarketExposure, CategoryExposure;
  }

  /** An opening adds its dollars to the exposure of its market and category and to no
      other, and moves neither portfolio value nor daily profit. */
  lemma OpeningExposures(cfg: Config, markets: map<string, Market>, l: Ledger, s: Step, marketId: string, category: string)
    requires s.Opening? && Enabled(l, s)
    ensures var l', usd := Apply(l, s), s.fill.filledUSD;
            var inCategory := s.order.marketId in markets && markets[s.order.marketId].category == category;
            && MarketExposure(l', marketId)
               == MarketExposure(l, marketId) + (if s.order.marketId == marketId then usd else 0.0)
            && CategoryExposure(l', markets, category)
               == CategoryExposure(l, markets, category) + (if inCategory then usd else 0.0)
            && PortfolioOf(l', cfg.startingBalanceUSD).portfolioValueUSD
               == PortfolioOf(l, cfg.startingBalanceUSD).portfolioValueUSD
            && PortfolioOf(l', cfg.startingBalanceUSD).dailyPnLUSD == PortfolioOf(l, cfg.startingBalanceUSD).dailyPnLUSD
  {
    hide Sum, Consistent, OpenCount, Committed, Exposure, Realized, OpenPnL;
    OpeningSums(l, s);
    var position := NewPosition(s.positionId, s.order, s.fill);
    SumPut(l.positions, s.positionId, position, InMarket(marketId));
    SumPut(l.positions, s.positionId, position, InCategory(markets, category));
  }

  /** The caps survive execution: whatever part of the approved size the book fills,
      market and category exposure stay within their percentages of a portfolio value
      recomputed after the trade, and value and daily profit do not move. */
  lemma CapsSurviveExecution(cfg: Config, markets: map<string, Market>, l: Ledger, prob: ProbabilityDecision,
                             market: Market, requested: real, now: real, s: Step)
    requires Sound(l) && PositiveConfig(cfg)
    requires VerdictFor(cfg, markets, l, prob, market, requested, now).Approved?
    requires s.Opening? && Enabled(l, s) && s.order.marketId == market.id
    requires s.fill.filledUSD <= VerdictFor(cfg, markets, l, prob, market, requested, now).sizeUSD
    requires market.id in markets && markets[market.id].category == market.category
    ensures var l' := Apply(l, s);
            && WithinCaps(cfg, markets, l', market.id, market.category)
            && PortfolioOf(l', cfg.startingBalanceUSD).portfolioValueUSD
               == PortfolioOf(l, cfg.startingBalanceUSD).portfolioValueUSD
            && PortfolioOf(l', cfg.startingBalanceUSD).dailyPnLUSD == PortfolioOf(l, cfg.startingBalanceUSD).dailyPnLUSD
            && OpenCount(l') <= cfg.maxTotalOpenPositions
  {
    hide Sum, Consistent, OpenCount, PortfolioOf, MarketExposure, CategoryExposure, KellyFraction, ImpactOf, TargetSize,
      MarketCap, CategoryCap, Apply, Enabled, Sound, WithinCaps;
    WithinCapsIff(cfg, markets, Apply(l, s), market.id, market.category);
    OpenCountStep(l, s);
    OpeningExposures(cfg, markets, l, s, market.id, market.category);
  }

  /** Market quality as the engine asks for it. */
  predicate Tradable(cfg: Config, market: Market, now: real) {
    && market.spread <= cfg.marketMaxSpread && market.liquidity >= cfg.marketMinLiquidityUSD
    && (market.endTime.Some? ==> market.endTime.value - now >= cfg.marketMinHoursToExpiry)
  }

  /** What an approval is good for: an order of the target size is approved if and only
      if it has an edge at a price strictly between 0 and 1, the market is tradable, the
      daily loss and the price impact are within their limits, and the books it would
      leave if it were filled completely hold no more open positions than allowed, with
      its market and its category within their caps. */
  lemma ApprovedIff(cfg: Config, markets: map<string, Market>, l: Ledger, prob: ProbabilityDecision,
                    market: Market, requested: real, now: real, s: Step)
    requires Sound(l) && market.id in markets && markets[market.id].category == market.category
    requires s.Opening? && Enabled(l, s) && s.order.marketId == market.id
    requires var value := PortfolioOf(l, cfg.startingBalanceUSD).portfolioValueUSD;
             s.fill.filledUSD == TargetSize(cfg, value, KellyFraction(prob.ourProbability, prob.executablePrice), requested)
    ensures var filled := Apply(l, s);
            VerdictFor(cfg, markets, l, prob, market, requested, now).Approved? <==>
              && 0.0 < prob.executablePrice < 1.0 && prob.ourProbability > prob.executablePrice
              && Tradable(cfg, market, now)
              && PortfolioOf(filled, cfg.startingBalanceUSD).dailyPnLPct > -cfg.maxDailyLossPct
              && ImpactOf(s.fill.filledUSD, prob.executablePrice, market.asks) <= cfg.maxOrderbookImpactPct
              && OpenCount(filled) <= cfg.maxTotalOpenPositions
              && WithinCaps(cfg, markets, filled, market.id, market.category)
  {
    FillIsPositive(s.fill);
    DailyPctOf(l, cfg.startingBalanceUSD);
    DailyPctOf(Apply(l, s), cfg.startingBalanceUSD);
    hide Sum, Consistent, OpenCount, PortfolioOf, MarketExposure, CategoryExposure, KellyFraction, ImpactOf, TargetSize,
      MarketCap, CategoryCap, Apply, Sound, WithinCaps;
    WithinCapsIff(cfg, markets, Apply(l, s), market.id, market.category);
    KellyIdentity(prob.ourProbability, prob.executablePrice);
    OpenCountStep(l, s);
    OpeningExposures(cfg, markets, l, s, market.id, market.category);
  }

  lemma VerdictIsTarget(cfg: Config, markets: map<string, Market>, l: Ledger, prob: ProbabilityDecision,
                        market: Market, requested: real, now: real)
    requires VerdictFor(cfg, markets, l, prob, market, requested, now).Approved?
    ensures var value := PortfolioOf(l, cfg.startingBalanceUSD).portfolioValueUSD;
            VerdictFor(cfg, markets, l, prob, market, requested, now).sizeUSD
            == TargetSize(cfg, value, KellyFraction(prob.ourProbability, prob.executablePrice), requested)
  {}

  lemma FillIsPositive(f: Fill)
    requires Consistent(f) && f.quantity > 0.0
    ensures f.filledUSD > 0.0
  {}

  lemma DailyPctOf(l: Ledger, startingCash: real)
    ensures var p := PortfolioOf(l, startingCash);
            p.dailyPnLPct == if startingCash > 0.0 then p.dailyPnLUSD / startingCash else 0.0
  {}

  /** A rejection names a check that really failed. */
  lemma RejectionNamesAFailure(cfg: Config, markets: map<string, Market>, l: Ledger, prob: ProbabilityDecision,
                               market: Market, requested: real, now: real, reason: string)
    requires VerdictFor(cfg, markets, l, prob, market, requested, now) == Rejected(reason)
    ensures var portfolio := PortfolioOf(l, cfg.startingBalanceUSD);
            var p, c := prob.ourProbability, prob.executablePrice;
            var size := TargetSize(cfg, portfolio.portfolioValueUSD, KellyFraction(p, c), requested);
            var value := portfolio.portfolioValueUSD;
            var caps, categoryCaps := MarketCap(cfg, value), CategoryCap(cfg, value);
            || (reason == "daily loss exceeded" && portfolio.dailyPnLPct <= -cfg.maxDailyLossPct)
            || (reason == "max total open positions reached" && OpenCount(l) >= cfg.maxTotalOpenPositions)
            || (reason == "spread too wide" && market.spread > cfg.marketMaxSpread)
            || (reason == "insufficient liquidity" && market.liquidity < cfg.marketMinLiquidityUSD)
            || (reason == "market too close to expiry" && market.endTime.Some?
                && market.endTime.value - now < cfg.marketMinHoursToExpiry)
            || (reason == "market exposure too high" && MarketExposure(l, market.id) + Max(0.0, size) >= caps)
            || (reason == "category exposure too high"
                && CategoryExposure(l, markets, market.category) + Max(0.0, size) >= categoryCaps)
            || (reason == "kelly sizing non-positive" && !(0.0 < c < 1.0 && p > c))
            || (reason == "orderbook impact too high" && ImpactOf(size, c, market.asks) > cfg.maxOrderbookImpactPct)
  {
    hide Sum, PortfolioOf, MarketExposure, CategoryExposure, OpenCount, KellyFraction, ImpactOf, MarketCap, CategoryCap,
      TargetSize;
    KellyIdentity(prob.ourProbability, prob.executablePrice);
  }

  // ---------- Every market and every category ----------

  /** From l to l', at one portfolio value, no exposure has grown beyond its cap. */
  ghost predicate NoneBeyondCap(cfg: Config, markets: map<string, Market>, l: Ledger, l': Ledger) {
    var value := PortfolioOf(l, cfg.startingBalanceUSD).portfolioValueUSD;
    && PortfolioOf(l', cfg.startingBalanceUSD).portfolioValueUSD == value
    && (forall id ::
          MarketExposure(l', id) <= Max(MarketExposure(l, id), cfg.maxPositionPerMarketPct * value))
    && (forall c ::
          CategoryExposure(l', markets, c) <= Max(CategoryExposure(l, markets, c), cfg.maxCategoryExposurePct * value))
  }

  lemma ApprovedOpeningIsWithinCaps(cfg: Config, markets: map<string, Market>, l: Ledger, prob: ProbabilityDecision,
                                    market: Market, requested: real, now: real, s: Step)
    requires Sound(l) && PositiveConfig(cfg)
    requires VerdictFor(cfg, markets, l, prob, market, requested, now).Approved?
    requires s.Opening? && Enabled(l, s) && s.order.marketId == market.id
    requires s.fill.filledUSD <= VerdictFor(cfg, markets, l, prob, market, requested, now).sizeUSD
    requires market.id in markets && markets[market.id].category == market.category
    ensures NoneBeyondCap(cfg, markets, l, Apply(l, s))
  {
    hide Sum, OpenCount, PortfolioOf, MarketExposure, CategoryExposure, VerdictFor, MarketCap, CategoryCap, Apply,
      Enabled, Sound;
    CapsSurviveExecution(cfg, markets, l, prob, market, requested, now, s);
    var l' := Apply(l, s);
    forall id
      ensures id != market.id ==> MarketExposure(l', id) == MarketExposure(l, id)
    {
      OpeningExposures(cfg, markets, l, s, id, market.category);
    }
    forall c
      ensures c != market.category ==> CategoryExposure(l', markets, c) == CategoryExposure(l, markets, c)
    {
      OpeningExposures(cfg, markets, l, s, market.id, c);
    }
  }
}
