/** The probability engine: market price, AI signal and momentum combined into a
    probability, an executable price, and the edge between them. */
module Probability {
  import opened Model
  import opened OrderBook
  import opened Store

  function MarketProbability(bid: real, ask: real, fallback: real): real {
    if bid > 0.0 && ask > 0.0 then (bid + ask) / 2.0
    else if fallback > 0.0 then fallback
    else 0.5
  }

  function ExecutablePrice(outcome: string, side: string, bid: real, ask: real, yesPrice: real, noPrice: real): real {
    if outcome == "no" then
      if (side == "buy" || side == "sell") && noPrice > 0.0 then noPrice
      else if side == "buy" && bid > 0.0 then 1.0 - bid
      else if ask > 0.0 then 1.0 - ask
      else 0.5
    else if side == "sell" && bid > 0.0 then bid
    else if ask > 0.0 then ask
    else if yesPrice > 0.0 then yesPrice
    else 0.5
  }

  function PricedInMultiplier(risk: string): real {
    match risk
    case "low" => 1.0
    case "medium" => 0.6
    case "high" => 0.3
    case _ => 0.6
  }

  function EffectiveDelta(signal: AISignal): real {
    signal.probabilityDelta * signal.confidence * signal.sourceReliability * PricedInMultiplier(signal.pricedInRisk)
  }

  function RecentPriceMomentum(prior: real, current: real, hasLiveState: bool): real {
    if !hasLiveState || prior <= 0.0 || current <= 0.0 then 0.0 else current - prior
  }

  function Clamp(v: real, lo: real, hi: real): real {
    if v < lo then lo else if v > hi then hi else v
  }

  /** The decision for a stored market, the live market (the same one when nothing is
      streamed), and the latest signal. */
  function DecisionFor(cfg: Config, stored: Market, live: Market, hasLiveState: bool, signal: AISignal,
                       newsId: string, side: string, outcome: string, id: string, now: real): ProbabilityDecision
  {
    var side := if side == "" then "buy" else side;
    var outcome := if outcome == "" then "yes" else outcome;
    var prior := MarketProbability(stored.bestBid, stored.bestAsk, stored.yesPrice);
    var marketProb := MarketProbability(live.bestBid, live.bestAsk, live.yesPrice);
    var price := ExecutablePrice(outcome, side, live.bestBid, live.bestAsk, live.yesPrice, live.noPrice);
    var delta := EffectiveDelta(signal);
    var momentum := RecentPriceMomentum(prior, marketProb, hasLiveState) * 0.30;
    var ours := Clamp(marketProb + delta + momentum, 0.01, 0.99);
    var edge := if side == "sell" then price - ours
                else if outcome == "no" then (1.0 - ours) - price
                else ours - price;
    ProbabilityDecision(id, live.id, newsId, marketProb, price, ours, edge, signal.confidence,
                        Abs(edge) >= cfg.edgeThreshold && signal.confidence >= cfg.minSignalConfidence,
                        side, outcome, now)
  }

  /** What the engine computes with when no signal is stored: all fields zero. */
  const NO_SIGNAL := AISignal(0.0, 0.0, 0.0, "", false)

  function SignalOr(used: Option<AISignal>): AISignal {
    if used.Some? then used.value else NO_SIGNAL
  }

  /** One new decision, from the stored and the live market and the latest signal the
      lookup finds, or none. */
  method Calculate(store: MemoryStore, cfg: Config, newId: set<string> -> string, marketId: string, newsId: string,
                   side: string, outcome: string, now: real)
    returns (r: Result<ProbabilityDecision>, ghost used: Option<AISignal>)
    requires FreshIds(newId)
    modifies store`probs
    ensures r.Err? <==> marketId !in store.markets
    ensures r.Err? ==> store.probs == old(store.probs)
    ensures r.Ok? ==> r.value.id !in old(store.probs) && store.probs == old(store.probs)[r.value.id := r.value]
    ensures r.Ok? ==> var m := store.markets[marketId];
              && PossibleLatest(store.signals, marketId, newsId, used)
              && r.value == DecisionFor(cfg, m, store.LiveMarket(m), m.id in store.liveStates, SignalOr(used),
                                        newsId, side, outcome, r.value.id, now)
  {
    used := None;
    if marketId !in store.markets {
      return Err("no rows in result set"), used;
    }
    var stored := store.markets[marketId];
    var live, hasLiveState := store.LiveMarket(stored), stored.id in store.liveStates;
    var signal := store.LatestAISignal(marketId, newsId);
    used := signal;
    var d := DecisionFor(cfg, stored, live, hasLiveState, SignalOr(signal), newsId, side, outcome,
                         newId(store.probs.Keys), now);
    store.probs := store.probs[d.id := d];
    return Ok(d), used;
  }

  /** A candidate to buy "yes" clears both thresholds, and its edge is the gap between
      a probability inside [0.01, 0.99] and the price. */
  lemma BuyCandidate(cfg: Config, stored: Market, live: Market, hasLiveState: bool, signal: AISignal,
                     newsId: string, id: string, now: real)
    ensures var d := DecisionFor(cfg, stored, live, hasLiveState, signal, newsId, "buy", "yes", id, now);
            && d.edge == d.ourProbability - d.executablePrice && 0.01 <= d.ourProbability <= 0.99
            && d.side == "buy" && d.outcome == "yes" && d.marketId == live.id && d.id == id
            && d.newsId == newsId && d.createdAt == now
            && (d.candidate <==> Abs(d.edge) >= cfg.edgeThreshold && d.confidence >= cfg.minSignalConfidence)
  {}

  // ---------- What the numbers are ----------

  lemma {:induction false} OfferedWithin(levels: seq<Level>, limitPrice: real, side: string)
    requires limitPrice > 0.0 && side in {"buy", "sell"}
    ensures Offers(levels, limitPrice, side) != [] <==>
              exists i :: 0 <= i < |levels| && levels[i].price > 0.0 && levels[i].size > 0.0
                          && (if side == "buy" then levels[i].price <= limitPrice else levels[i].price >= limitPrice)
  {
    if levels != [] {
      OfferedWithin(levels[1..], limitPrice, side);
      if i :| 0 <= i < |levels| && Eligible(levels[i], limitPrice, side) {
        assert i > 0 ==> levels[1..][i - 1] == levels[i];
      }
    }
  }

  /** A purchase of "yes" is priced at the least limit at which the book offers anything:
      a book whose asks begin at the best ask, none cheaper, has something to offer at the
      price and nothing at any lower limit. */
  lemma BuyingYesCostsTheLeast(cfg: Config, stored: Market, live: Market, hasLiveState: bool, signal: AISignal,
                               newsId: string, id: string, now: real)
    requires live.asks != [] && live.asks[0].price == live.bestAsk > 0.0 && live.asks[0].size > 0.0
    requires forall i :: 0 <= i < |live.asks| ==> live.asks[i].price >= live.bestAsk
    ensures var price := DecisionFor(cfg, stored, live, hasLiveState, signal, newsId, "buy", "yes", id, now).executablePrice;
            && price == live.bestAsk && Offers(live.asks, price, "buy") != []
            && forall e :: 0.0 < e < price ==> Offers(live.asks, e, "buy") == []
  {
    hide MarketProbability, EffectiveDelta, Offers;
    OfferedWithin(live.asks, live.bestAsk, "buy");
    forall e | 0.0 < e < live.bestAsk
      ensures Offers(live.asks, e, "buy") == []
    {
      OfferedWithin(live.asks, e, "buy");
    }
  }

  /** And a sale of "yes" at the highest limit at which anything is bid. */
  lemma SellingYesFetchesTheMost(cfg: Config, stored: Market, live: Market, hasLiveState: bool, signal: AISignal,
                                 newsId: string, id: string, now: real)
    requires live.bids != [] && live.bids[0].price == live.bestBid > 0.0 && live.bids[0].size > 0.0
    requires forall i :: 0 <= i < |live.bids| ==> live.bids[i].price <= live.bestBid
    ensures var price := DecisionFor(cfg, stored, live, hasLiveState, signal, newsId, "sell", "yes", id, now).executablePrice;
            && price == live.bestBid && Offers(live.bids, price, "sell") != []
            && forall e :: e > price ==> Offers(live.bids, e, "sell") == []
  {
    hide MarketProbability, EffectiveDelta, Offers;
    OfferedWithin(live.bids, live.bestBid, "sell");
    forall e | e > live.bestBid
      ensures Offers(live.bids, e, "sell") == []
    {
      OfferedWithin(live.bids, e, "sell");
    }
  }

  /** Without the quote it wants, "yes" is priced at the ask, then at the last yes price,
      then at one half. "No" has its own price where the market gives one; where it does
      not, a purchase costs what a sale of "yes" to the bid leaves of a dollar, and a sale
      fetches what a purchase of "yes" at the ask leaves. */
  lemma PricesByQuote(cfg: Config, stored: Market, live: Market, hasLiveState: bool, signal: AISignal,
                      newsId: string, id: string, now: real)
    ensures var buyYes := DecisionFor(cfg, stored, live, hasLiveState, signal, newsId, "buy", "yes", id, now).executablePrice;
            var sellYes := DecisionFor(cfg, stored, live, hasLiveState, signal, newsId, "sell", "yes", id, now).executablePrice;
            var buyNo := DecisionFor(cfg, stored, live, hasLiveState, signal, newsId, "buy", "no", id, now).executablePrice;
            var sellNo := DecisionFor(cfg, stored, live, hasLiveState, signal, newsId, "sell", "no", id, now).executablePrice;
            && (live.bestAsk > 0.0 ==> buyYes == live.bestAsk)
            && (live.bestBid > 0.0 ==> sellYes == live.bestBid) && (live.bestBid <= 0.0 ==> sellYes == buyYes)
            && (live.bestAsk <= 0.0 ==> buyYes == if live.yesPrice > 0.0 then live.yesPrice else 0.5)
            && (live.noPrice > 0.0 ==> buyNo == sellNo == live.noPrice)
            && (live.noPrice <= 0.0 && live.bestBid > 0.0 ==> buyNo + sellYes == 1.0)
            && (live.noPrice <= 0.0 && live.bestAsk > 0.0 ==> sellNo + buyYes == 1.0)
            && (live.noPrice <= 0.0 && live.bestBid <= 0.0 ==> buyNo == sellNo)
            && (live.noPrice <= 0.0 && live.bestAsk <= 0.0 ==> sellNo == 0.5)
  {
    hide MarketProbability, EffectiveDelta, RecentPriceMomentum, Clamp;
  }

  /** Inside the clamp the probability of a quoted market is its mid price, plus the
      signal's delta weighted by confidence, reliability and how far the news may be
      priced in (1, 0.6 or 0.3, and 0.6 for any other word), plus three tenths of the
      move from the stored to the streamed mid price. */
  lemma ProbabilityIs(cfg: Config, stored: Market, live: Market, hasLiveState: bool, signal: AISignal,
                      newsId: string, side: string, outcome: string, id: string, now: real)
    requires 0.0 < stored.bestBid && 0.0 < stored.bestAsk && 0.0 < live.bestBid && 0.0 < live.bestAsk
    ensures var d := DecisionFor(cfg, stored, live, hasLiveState, signal, newsId, side, outcome, id, now);
            var mid, before := (live.bestBid + live.bestAsk) / 2.0, (stored.bestBid + stored.bestAsk) / 2.0;
            var weight := if signal.pricedInRisk == "low" then 1.0 else if signal.pricedInRisk == "high" then 0.3 else 0.6;
            var p := mid + signal.probabilityDelta * signal.confidence * signal.sourceReliability * weight
                     + (if hasLiveState then 0.30 * (mid - before) else 0.0);
            && d.marketProbability == mid && d.confidence == signal.confidence
            && d.ourProbability == Max(0.01, Min(0.99, p))
  {
    WeightOf(signal);
    hide EffectiveDelta, ExecutablePrice;
  }

  lemma WeightOf(signal: AISignal)
    ensures var weight := if signal.pricedInRisk == "low" then 1.0 else if signal.pricedInRisk == "high" then 0.3 else 0.6;
            EffectiveDelta(signal) == signal.probabilityDelta * signal.confidence * signal.sourceReliability * weight
  {}

  /** A market quoted on one side only is taken at its last yes price, and without one at
      even odds. */
  lemma UnquotedMarketProbability(cfg: Config, m: Market, signal: AISignal, newsId: string, side: string, outcome: string,
                                  id: string, now: real)
    requires m.bestBid <= 0.0 || m.bestAsk <= 0.0
    ensures DecisionFor(cfg, m, m, false, signal, newsId, side, outcome, id, now).marketProbability
         == if m.yesPrice > 0.0 then m.yesPrice else 0.5
  {
    hide EffectiveDelta, ExecutablePrice, Clamp;
  }

  /** A request that names neither side nor outcome is a purchase of "yes". */
  lemma RequestDefaults(cfg: Config, stored: Market, live: Market, hasLiveState: bool, signal: AISignal,
                        newsId: string, id: string, now: real)
    ensures DecisionFor(cfg, stored, live, hasLiveState, signal, newsId, "", "", id, now)
         == DecisionFor(cfg, stored, live, hasLiveState, signal, newsId, "buy", "yes", id, now)
  {}

  /** A decision taken without any stored signal is no candidate where a threshold asks
      for confidence. */
  lemma NoSignalNeverTrades(cfg: Config, stored: Market, live: Market, hasLiveState: bool,
                            newsId: string, side: string, outcome: string, id: string, now: real)
    requires cfg.minSignalConfidence > 0.0
    ensures !DecisionFor(cfg, stored, live, hasLiveState, SignalOr(None), newsId, side, outcome, id, now).candidate
  {
    hide MarketProbability, EffectiveDelta, ExecutablePrice, Clamp;
  }

  // ---------- What an edge means ----------

  /** The probability of an outcome, given that of "yes". */
  function Fair(outcome: string, ours: real): real {
    if outcome == "no" then 1.0 - ours else ours
  }

  /** The probability before it is clamped. */
  function Unclamped(stored: Market, live: Market, hasLiveState: bool, signal: AISignal): real {
    var prior := MarketProbability(stored.bestBid, stored.bestAsk, stored.yesPrice);
    var marketProb := MarketProbability(live.bestBid, live.bestAsk, live.yesPrice);
    marketProb + EffectiveDelta(signal) + RecentPriceMomentum(prior, marketProb, hasLiveState) * 0.30
  }

  /** An edge is meant to be what the outcome is worth less its price, the other way
      round for a sale. The engine reports that for every order except the sale of "no",
      where it compares the price with the probability of "yes": there the edge is right
      only when market, signal and momentum add up to even odds. An empty side is a
      purchase, so only a request that names both "sell" and "no" is affected. */
  lemma EdgeIsPriceGapIff(cfg: Config, stored: Market, live: Market, hasLiveState: bool, signal: AISignal,
                          newsId: string, side: string, outcome: string, id: string, now: real)
    ensures var d := DecisionFor(cfg, stored, live, hasLiveState, signal, newsId, side, outcome, id, now);
            var worth := Fair(d.outcome, d.ourProbability);
            d.edge == (if d.side == "sell" then d.executablePrice - worth else worth - d.executablePrice) <==>
              !(side == "sell" && outcome == "no") || Unclamped(stored, live, hasLiveState, signal) == 0.5
  {
    hide MarketProbability, ExecutablePrice, EffectiveDelta, RecentPriceMomentum;
  }

  /** Such a request: "no" bid at 0.25 on a market at 0.75 is sold at its worth, yet the
      engine, with no signal stored, reports an edge of a half against it. */
  lemma SellingNoIsMispriced(cfg: Config, newsId: string, id: string, now: real)
    ensures var m := Market("m", "", "", None, 0.0, 0.75, 0.25, 0.75, 0.75, 0.0, [], []);
            var d := DecisionFor(cfg, m, m, false, NO_SIGNAL, newsId, "sell", "no", id, now);
            d.executablePrice == Fair("no", d.ourProbability) && d.edge == -0.5
  {
    hide EffectiveDelta, DecisionFor;
    NoSignalMovesNothing();
    var m := Market("m", "", "", None, 0.0, 0.75, 0.25, 0.75, 0.75, 0.0, [], []);
    SellNo(cfg, m, NO_SIGNAL, newsId, id, now);
  }

  lemma NoSignalMovesNothing()
    ensures EffectiveDelta(NO_SIGNAL) == 0.0
  {
    hide PricedInMultiplier;
  }

  lemma SellNo(cfg: Config, m: Market, signal: AISignal, newsId: string, id: string, now: real)
    requires EffectiveDelta(signal) == 0.0 && m.noPrice > 0.0 && 0.01 <= m.bestBid <= m.bestAsk <= 0.99
    ensures var d := DecisionFor(cfg, m, m, false, signal, newsId, "sell", "no", id, now);
            var ours := (m.bestBid + m.bestAsk) / 2.0;
            d.ourProbability == ours && d.executablePrice == m.noPrice && d.edge == m.noPrice - ours
  {
    hide EffectiveDelta;
  }

  /** No round trip looks profitable: on a book whose bid does not exceed its ask, buying
      "yes" and selling "yes" never both have a positive edge, nor do buying "yes" and
      buying "no" while "no" is priced from the same book. */
  lemma NoTwoSidedEdge(cfg: Config, stored: Market, live: Market, hasLiveState: bool, signal: AISignal,
                       newsId: string, id: string, now: real)
    requires 0.0 < live.bestBid <= live.bestAsk
    ensures var buyYes := DecisionFor(cfg, stored, live, hasLiveState, signal, newsId, "buy", "yes", id, now).edge;
            var sellYes := DecisionFor(cfg, stored, live, hasLiveState, signal, newsId, "sell", "yes", id, now).edge;
            var buyNo := DecisionFor(cfg, stored, live, hasLiveState, signal, newsId, "buy", "no", id, now).edge;
            && !(buyYes > 0.0 && sellYes > 0.0)
            && (live.noPrice <= 0.0 ==> !(buyYes > 0.0 && buyNo > 0.0))
  {}

  /** A validated signal and the observed momentum bound how far the engine's
      probability can lie from the market's: at most 0.20 for the signal and 0.30 of the
      price move since the market was stored. */
  lemma SignalMoveIsBounded(cfg: Config, stored: Market, live: Market, hasLiveState: bool, signal: AISignal,
                            newsId: string, side: string, outcome: string, id: string, now: real)
    requires -0.20 <= signal.probabilityDelta <= 0.20
    requires 0.0 <= signal.confidence <= 1.0 && 0.0 <= signal.sourceReliability <= 1.0
    ensures var d := DecisionFor(cfg, stored, live, hasLiveState, signal, newsId, side, outcome, id, now);
            var market := MarketProbability(live.bestBid, live.bestAsk, live.yesPrice);
            var prior := MarketProbability(stored.bestBid, stored.bestAsk, stored.yesPrice);
            && 0.01 <= d.ourProbability <= 0.99
            && (0.01 <= market <= 0.99 ==> Abs(d.ourProbability - market) <= 0.20 + 0.30 * Abs(market - prior))
  {
    hide MarketProbability, ExecutablePrice, EffectiveDelta;
    EffectiveDeltaBound(signal);
  }

  lemma EffectiveDeltaBound(signal: AISignal)
    requires -0.20 <= signal.probabilityDelta <= 0.20
    requires 0.0 <= signal.confidence <= 1.0 && 0.0 <= signal.sourceReliability <= 1.0
    ensures -0.20 <= EffectiveDelta(signal) <= 0.20
  {
    var m := PricedInMultiplier(signal.pricedInRisk);
    assert 0.0 <= m <= 1.0;
    hide PricedInMultiplier;
    Shrink(signal.probabilityDelta, signal.confidence);
    Shrink(signal.probabilityDelta * signal.confidence, signal.sourceReliability);
    Shrink(signal.probabilityDelta * signal.confidence * signal.sourceReliability, m);
  }

  lemma Shrink(x: real, f: real)
    requires -0.20 <= x <= 0.20 && 0.0 <= f <= 1.0
    ensures -0.20 <= x * f <= 0.20
  {
    if x >= 0.0 {
      assert x * f <= x * 1.0;
    } else {
      assert x * f >= x * 1.0;
    }
  }
}
