/** The records the services exchange. Floating-point amounts are reals; times are
    real hours on one clock; audit payloads and timestamps of records are left out. */
module Model {

  datatype Option<+T> = None | Some(value: T)

  datatype Result<+T> = Ok(value: T) | Err(message: string)

  datatype Level = Level(price: real, size: real)

  datatype Market = Market(
    id: string, question: string, category: string, endTime: Option<real>, liquidity: real,
    yesPrice: real, noPrice: real, bestBid: real, bestAsk: real, spread: real,
    bids: seq<Level>, asks: seq<Level>)

  datatype LiveMarketState = LiveMarketState(
    marketId: string, bestBid: real, bestAsk: real, lastPrice: real, midPrice: real, spread: real,
    bids: seq<Level>, asks: seq<Level>)

  datatype NewsArticle = NewsArticle(
    id: string, hash: string, title: string, content: string,
    keywords: seq<string>, entities: seq<string>)

  datatype AISignal = AISignal(
    probabilityDelta: real, confidence: real, sourceReliability: real, pricedInRisk: string, disabled: bool)

  /** A signal as the store keeps it: what it is about and when it was made. */
  datatype StoredSignal = StoredSignal(marketId: string, newsId: string, createdAt: real, signal: AISignal)

  datatype ProbabilityDecision = ProbabilityDecision(
    id: string, marketId: string, newsId: string, marketProbability: real, executablePrice: real,
    ourProbability: real, edge: real, confidence: real, candidate: bool, side: string, outcome: string,
    createdAt: real)

  datatype RiskDecision = RiskDecision(
    id: string, marketId: string, probabilityDecisionId: string, approved: bool,
    positionSizeUSD: real, rejectReason: string)

  datatype OrderRequest = OrderRequest(
    marketId: string, outcome: string, side: string, limitPrice: real, sizeUSD: real)

  datatype OrderResult = OrderResult(
    tradeId: string, averagePrice: real, quantity: real, filledSizeUSD: real)

  datatype Status = Open | Closed

  datatype Trade = Trade(
    id: string, marketId: string, outcome: string, side: string, status: Status,
    entryPrice: real, exitPrice: real, sizeUSD: real, quantity: real, feesUSD: real, slippageUSD: real,
    realizedPnLUSD: real)

  datatype Position = Position(
    id: string, marketId: string, outcome: string, quantity: real, avgEntryPrice: real,
    currentPrice: real, exposureUSD: real, unrealizedPnLUSD: real, status: Status)

  datatype ExitDecision = ExitDecision(
    shouldExit: bool, positionId: string, reason: string, pnlPct: real, edge: real)

  datatype PortfolioState = PortfolioState(
    cashUSD: real, portfolioValueUSD: real, exposureUSD: real, openPnLUSD: real,
    realizedPnLUSD: real, dailyPnLUSD: real, dailyPnLPct: real, openPositions: nat)

  datatype Config = Config(
    edgeThreshold: real, minSignalConfidence: real,
    maxPositionPerMarketPct: real, maxCategoryExposurePct: real, maxDailyLossPct: real,
    maxTotalOpenPositions: int, maxOrderbookImpactPct: real, kellyFraction: real,
    marketMaxSpread: real, marketMinLiquidityUSD: real, marketMinHoursToExpiry: real,
    startingBalanceUSD: real, takeProfitPct: real, stopLossPct: real, exitBeforeExpiryHours: real)

  function Min(a: real, b: real): real { if a <= b then a else b }

  function Max(a: real, b: real): real { if a >= b then a else b }

  function Abs(a: real): real { if a < 0.0 then -a else a }

  /** The latest streamed state laid over a stored market: positive prices and
      non-empty books win, identity and category stay the stored ones. */
  function ApplyLiveState(m: Market, st: LiveMarketState): (r: Market)
    ensures r.id == m.id && r.category == m.category && r.endTime == m.endTime && r.liquidity == m.liquidity
    ensures st.marketId != "" ==>
              && (st.bestBid > 0.0 ==> r.bestBid == st.bestBid) && (st.bestAsk > 0.0 ==> r.bestAsk == st.bestAsk)
              && (st.midPrice > 0.0 ==> r.yesPrice == st.midPrice) && (st.spread > 0.0 ==> r.spread == st.spread)
              && (st.bids != [] ==> r.bids == st.bids) && (st.asks != [] ==> r.asks == st.asks)
    ensures (st.bestBid <= 0.0 ==> r.bestBid == m.bestBid) && (st.bestAsk <= 0.0 ==> r.bestAsk == m.bestAsk)
    ensures (st.bids == [] ==> r.bids == m.bids) && (st.asks == [] ==> r.asks == m.asks)
    ensures st.spread <= 0.0 && r.spread != m.spread ==> 0.0 < r.bestBid && 0.0 < r.bestAsk == r.bestBid + r.spread
    ensures st.marketId != "" && st.midPrice <= 0.0 && st.lastPrice > 0.0 ==> r.yesPrice == st.lastPrice
    ensures st.midPrice <= 0.0 && st.lastPrice <= 0.0 ==> r.yesPrice == m.yesPrice
    ensures st.marketId == "" ==> r == m
  {
    if st.marketId == "" then m
    else
      var bid := if st.bestBid > 0.0 then st.bestBid else m.bestBid;
      var ask := if st.bestAsk > 0.0 then st.bestAsk else m.bestAsk;
      m.(bestBid := bid,
         bestAsk := ask,
         yesPrice := if st.midPrice > 0.0 then st.midPrice
                     else if st.lastPrice > 0.0 then st.lastPrice else m.yesPrice,
         spread := if st.spread > 0.0 then st.spread
                   else if bid > 0.0 && ask > 0.0 then ask - bid else m.spread,
         bids := if |st.bids| > 0 then st.bids else m.bids,
         asks := if |st.asks| > 0 then st.asks else m.asks)
  }

  /** A state that quotes everything decides every price and both books, whatever the
      stored market says; and laying a state over a market twice changes nothing more. */
  lemma CompleteStateDecides(m: Market, n: Market, st: LiveMarketState)
    requires n == m.(yesPrice := n.yesPrice, bestBid := n.bestBid, bestAsk := n.bestAsk, spread := n.spread,
                     bids := n.bids, asks := n.asks)
    ensures st.marketId != "" && st.bestBid > 0.0 && st.bestAsk > 0.0 && (st.midPrice > 0.0 || st.lastPrice > 0.0)
              && st.bids != [] && st.asks != [] ==>
              ApplyLiveState(m, st) == ApplyLiveState(n, st)
    ensures ApplyLiveState(ApplyLiveState(m, st), st) == ApplyLiveState(m, st)
  {}

  /** Identifiers come from outside: all that is assumed is that a new one is
      non-empty and not in use. */
  ghost predicate FreshIds(newId: set<string> -> string) {
    forall used: set<string> :: newId(used) != "" && newId(used) !in used
  }
}
