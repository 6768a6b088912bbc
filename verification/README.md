# Verification of the paper-trading services

A Dafny 4.11 model of the two trading services and proofs of what they promise. The
core is the paper-trading ledger of `polymarket-process-service`: news is matched to
markets, a probability and a risk engine decide, the paper provider walks an order book
and writes a trade and a position, a monitor marks positions and the exit engine closes
them. Around it stand the text matcher, the TTL cache with the news dedupe of
`polymarket-fetch-data-service`, the dashboard fan-out, the Kafka consumer and the live
loop.

`dafny verify dfyconfig.toml` checks everything.

## How it is organised

- `Ledger` is the state two maps hold (trades and positions, linked by no key) and three
  kinds of step: opening, marking, closing. A step carries what the outside decided, so
  applying it is a function, and a run is a sequence of enabled steps. `LedgerTheorems`,
  `Pairing` and `Cycle` prove what all runs keep.
- `Trail` says what becomes of the matches of a cycle, as a fold over what the AI answers
  to each; `Live` proves that the service does exactly that.
- `Store`, `Execution`, `Probability`, `Risk`, `Monitor` and `Live` are the imperative
  services. Each method is proved to be some ledger steps, so that every theorem about
  runs holds of `LiveService.RunOnce`.
- `Cash` says when trading overdraws cash.
- `OrderBook` specifies both book walks by one greedy allocation; `OrderBookTheorems`
  proves what that allocation achieves.
- `TextMatch`, `TextRoundTrip`, `Matcher`; `Cache`, `Fetcher`; `Stream`; `SeenTracker`;
  `KafkaConsumer`; `LiveLoop`; `Signal` model one component each. `Sums`, `Sets` and
  `Model` are shared.

## Assumptions

- Amounts are reals and the 1e-6 tolerance is a real constant; times are integers or
  reals on one clock, passed in, and a cycle reads the clock once.
- New identifiers are non-empty and unused (`Model.FreshIds`); markets are stored under
  their own identifier (`Cycle.KeyedMarkets`), and so are articles where that matters
  (`Live.KeyedArticles`).
- `KellyFraction` and `MaxPositionPerMarketPct` are positive (`Risk.PositiveConfig`).
- Maps yield their values in arbitrary order; listings and matches are proved for every
  order.
- Lower-casing is any rune-by-rune function that leaves `a-z`, `0-9` and blanks alone.
- The AI may answer each match of a cycle differently, with any signal or failure; a
  cancelled context stays cancelled; marking a Kafka message commits the
  offset after it and marks only move forward; nothing but the fetcher writes the cache
  keys that start with `dedupe:news:`, and the memory cache reports no errors.

## Where the code does less than one might expect

Each of these is proved.

- Closing matches trades by approximate quantity or size among at most 10000 listed
  trades, so it can settle another position's trade (`Pairing.CloseBalancedIffSafe`,
  `Pairing.EqualQuantitiesMismatch`).
- `ClosePosition` does not check the status, so closing twice books the profit twice
  (`Pairing.RecloseIff`, `Pairing.ClosedTwice`); `RunOnce` never does so
  (`Cycle.AnyNumberOfCycles`).
- `Portfolio` never adds realised profit to cash (`Pairing.ValueIncludesProfitOverRunIff`,
  `Pairing.ProfitIsMissing`).
- The paper provider accepts a negative size and fills a negative quantity
  (`OrderBookTheorems.FillSign`); approved sizes are positive (`Risk.ApprovedBounds`).
- A limited sale reports the price it gains over its limit as slippage
  (`OrderBookTheorems.LimitedSaleSlippageIff`).
- No risk check looks at cash, so approved orders can overdraw it
  (`Cash.SecondApprovalOverdraws`; `Cash.TradingKeepsCash` says when they do not).
- The edge of selling "no" is computed against the probability of "yes"
  (`Probability.EdgeIsPriceGapIff`, `Probability.SellingNoIsMispriced`). Only a request
  made to the engine directly reaches this: the live service always buys "yes".
- The greedy walk is optimal, and the walk that checks a buy gets the same shares as the
  walk that fills it, only on sorted books (`OrderBookTheorems.GreedyBuyOptimalIff`,
  `OrderBookTheorems.WalksAgreeIff`, `OrderBookTheorems.UnsortedBookDisagrees`). That a
  completely filled limited buy has no impact needs less than a sorted book, though not
  nothing (`OrderBookTheorems.NoImpactIff`).
- The impact is checked on the live book and the order filled on the stored one
  (`Cycle.CheckPassesFillsIff`, `Cycle.StoredBookFillsAnyway`); likewise exits are
  priced at the stored bid and marks at the live one (`Monitor.ExitBooksTheMarkIff`,
  `Monitor.TakeProfitBooksALoss`).
- A full subscriber queue may reorder critical events (`Stream.OrderKeptIff`,
  `Stream.HighVolumeNewcomerReorders`), and drops a new one even when everything queued
  may be shed (`Stream.CriticalNewcomerDroppedIff`).
- `ConsumeClaim` ignores failures, so a later commit passes over a failed message
  (`KafkaConsumer.AtLeastOnceIff`, `KafkaConsumer.LaterCommitLosesMessage`).
- The dedupe key is set when an article is admitted and `news.arrived` sent when the whole
  batch is done, so two of one hash can come less than a day apart
  (`Fetcher.DayApartIff`, `Fetcher.SlowFetchThenQuick`).
- The cache forgets a hash after a day and the store never does, so an article fetched
  again under a new identifier is published and not stored
  (`Fetcher.PublishedIsStoredIff`, `Fetcher.RepublishedIsNotStored`).

## Model

| member | source | states |
|---|---|---|
| OrderBook.SimulateFill | polymarket-process-service/app/executionEngine/paper_execution_provider.go:133-172 | the loop that skips, caps and stops reports exactly the greedy allocation of the order's dollars over the eligible levels, for every size, limit, side and book |
| OrderBook.PriceImpact | polymarket-process-service/app/riskEngine/engine.go:156-185 | the risk engine's own loop, with its three early exits, computes the overpayment of that same greedy allocation over the unfiltered book |
| OrderBookTheorems.FillConserves | polymarket-process-service/app/executionEngine/paper_execution_provider.go:133-172 | a positive order spends exactly min(size, eligible depth), pays no fee, price times quantity equals dollars, and the report is empty exactly when no level is eligible |
| OrderBookTheorems.FillPriceBounds | polymarket-process-service/app/executionEngine/paper_execution_provider.go:133-172 | the average price lies between any bounds on the eligible prices; a limited buy never averages above its limit and never reports slippage, a limited sell never averages below its limit |
| OrderBookTheorems.LimitIsFilter | polymarket-process-service/app/executionEngine/paper_execution_provider.go:142-147 | a limited walk is the unlimited walk over the levels the limit admits, up to slippage |
| OrderBookTheorems.SlippageIsOverpayment | polymarket-process-service/app/executionEngine/paper_execution_provider.go:164-170 | slippage is the dollars beyond the fill's shares at the limit or, without one, at the first eligible price, and never negative |
| OrderBookTheorems.LimitedSaleSlippageIff | polymarket-process-service/app/executionEngine/paper_execution_provider.go:164-170 | for a limited sale these are dollars received above the limit: it reports slippage if and only if it averages above its limit |
| OrderBookTheorems.BetterSaleReportsSlippage | polymarket-process-service/app/executionEngine/paper_execution_provider.go:164-170 | such a sale: at 0.6 under a limit of 0.5 |
| OrderBookTheorems.FillSign | polymarket-process-service/app/executionEngine/paper_execution_provider.go:151-162 | the provider does not check sizes: a fill's sign is the order's sign, so a written trade is consistent if and only if the size is positive |
| OrderBookTheorems.GreedyBuysMost | polymarket-process-service/app/executionEngine/paper_execution_provider.go:151-161 | on an ascending book, spending d dollars more than the greedy walk, in any way within the depths, buys at most d/p more shares for any price p below the book |
| OrderBookTheorems.GreedyBuyOptimalIff | polymarket-process-service/app/executionEngine/paper_execution_provider.go:138-161 | no other way of spending the filled dollars buys more shares, at every size, if and only if the eligible levels are sorted cheapest first |
| OrderBookTheorems.GreedySellOptimalIff | polymarket-process-service/app/executionEngine/paper_execution_provider.go:138-161 | a sell walk gives up the fewest shares for its dollars, at every size, if and only if the eligible bids are sorted highest first |
| OrderBookTheorems.ImpactMonotone | polymarket-process-service/app/riskEngine/engine.go:156-185 | on an ascending book the price impact is never negative and never falls as the order grows |
| OrderBookTheorems.FullLimitedFillHasNoImpact | polymarket-process-service/app/riskEngine/engine.go:156-185 | when a buy limited to the expected price fills completely on an ascending book, both walks buy the same shares and the impact is 0 |
| OrderBookTheorems.WalksAgreeIff | polymarket-process-service/app/riskEngine/engine.go:156-185 | the walk that checks a buy and the walk that fills it buy the same shares, at every size the limit leaves depth for and every limit, if and only if the levels are sorted cheapest first |
| OrderBookTheorems.NoImpactIff | polymarket-process-service/app/riskEngine/engine.go:156-185 | every buy its limit lets fill completely has impact 0 at that price if and only if the unlimited walk, up to the depth the limit leaves, has never paid more than its shares are worth at the limit where it leaves a level |
| OrderBookTheorems.CheckCoversFillIff | polymarket-process-service/app/riskEngine/engine.go:156-185 | for any two books and any bound: every buy that its limit lets fill completely on the one has an impact within the bound on the other if and only if the walk over that other, up to the depth the limit leaves on the one, stays within the bound where it leaves a level |
| OrderBookTheorems.SortedIsNeverBehind | polymarket-process-service/app/riskEngine/engine.go:156-185 | on a book sorted cheapest first that condition holds at every limit |
| OrderBookTheorems.UnsortedBookDisagrees | polymarket-process-service/app/riskEngine/engine.go:156-185 | such a book: with a dear level in front a limited buy fills completely at its limit, the two walks buy different shares and the impact is 100% |
| LedgerTheorems.SoundRun | polymarket-process-service/app/executionEngine/paper_execution_provider.go:49-104 | over any run of opens, marks and closes every open trade carries zero realised profit and zero fees, and every position keeps price times quantity equal to exposure and, while open, an unrealised profit that agrees with its mark |
| LedgerTheorems.PricedRun | polymarket-process-service/app/executionEngine/paper_execution_provider.go:49-104 | over any run every trade, open, closed or synthetic, has entry price times quantity equal to its size |
| LedgerTheorems.SettleSums | polymarket-process-service/app/executionEngine/paper_execution_provider.go:69-108 | a close of a position of any status moves the four portfolio sums by exactly its exposure, its open profit, its profit, and the matched trade's size |
| LedgerTheorems.RealizedOverRun | polymarket-process-service/app/executionEngine/paper_execution_provider.go:86-104 | over any run realised profit grows by exactly the sum over the closes of (exit price - entry price) * quantity, whichever trade was matched and also when a synthetic one is written |
| LedgerTheorems.ProfitIsProceedsLessCost | polymarket-process-service/app/executionEngine/paper_execution_provider.go:86 | the booked profit is the proceeds of the shares less what the position cost |
| LedgerTheorems.ClosingMovesProfit | polymarket-process-service/app/executionEngine/paper_execution_provider.go:79-104 | a close turns open profit into realised profit: daily profit moves only by the gap between exit price and last mark, times quantity |
| LedgerTheorems.ExposurePlusPnLIsMarketValue | polymarket-process-service/pkg/repository/store.go:341-354 | exposure plus open profit is the sum of current price times quantity over open positions |
| LedgerTheorems.PortfolioValueOverRun | polymarket-process-service/pkg/repository/store.go:337-360 | after any run from an empty store the reported value is starting cash less the cost of open trades plus the market value of open positions, and daily profit is the profit of all closes plus open profit |
| LedgerTheorems.PortfolioReportOverRun | polymarket-process-service/pkg/repository/store.go:337-360 | over any run from an empty store the reported realised profit is the profits of the closes, exposure plus open profit is the market value of what is open, open positions are openings minus closings, and the daily percentage is of starting cash |
| LedgerTheorems.OpenTradeCosts | polymarket-process-service/pkg/repository/store.go:348-352 | a new open trade takes its size and its fees from cash |
| LedgerTheorems.PositionsContinue | polymarket-process-service/app/positionEngine/monitor.go:76-83 | over any run a position keeps its market, outcome, quantity, entry price and exposure, and a closed position never changes again |
| LedgerTheorems.ClosesAtMostOnce | polymarket-process-service/app/live/service/live_run_once.go:186-202 | no two closing steps of a run concern the same position |
| LedgerTheorems.OpenCountOverRun | polymarket-process-service/app/live/service/live_run_once.go:79-202 | the number of open positions changes over a run by exactly its openings minus its closings |
| Pairing.MatchIsOwn | polymarket-process-service/app/executionEngine/paper_execution_provider.go:109-123 | while open fills of one market and outcome differ by at least 1e-6 in both quantity and size and there are at most 10000 trades, every possible listing order makes the match return exactly the position's own trade |
| Pairing.MatchesIff | polymarket-process-service/app/executionEngine/paper_execution_provider.go:187-189 | a trade matches exactly if it is open, of the same market and outcome, and less than 0.000001 away in quantity or in size |
| Pairing.EqualSizesMatch | polymarket-process-service/app/executionEngine/paper_execution_provider.go:114-121 | equal sizes are enough: fills of 10 and 8 shares for the same four dollars match |
| Pairing.MissedIff | polymarket-process-service/app/executionEngine/paper_execution_provider.go:109-123 | some listing order misses every match exactly when all trades fail to match or at least 10000 do |
| Pairing.SeparatedRunsKeepTheBooks | polymarket-process-service/app/executionEngine/paper_execution_provider.go:49-123 | over any run from an empty store whose open fills stay separated, open trades and open positions are in bijection with equal market, outcome, quantity and size, matches are the positions' own trades, and the portfolio is worth starting cash plus open profit |
| Pairing.ValueIncludesProfitOverRunIff | polymarket-process-service/pkg/repository/store.go:337-360 | realised profit never reaches cash: over any such run the portfolio is worth starting cash plus daily profit if and only if the profits of the run's closes add up to nothing |
| Pairing.ProfitIsMissing | polymarket-process-service/pkg/repository/store.go:337-360 | such a run with a profit of 2 dollars, after which the portfolio is worth its starting cash |
| Pairing.CloseBalancedIffSafe | polymarket-process-service/app/executionEngine/paper_execution_provider.go:109-123 | without the separation hypothesis: a close keeps the cost of open trades equal to open exposure, under every listing order, if and only if every trade it could match has exactly the position's size and fewer trades fail to match than one listing holds |
| Pairing.EqualQuantitiesMismatch | polymarket-process-service/app/executionEngine/paper_execution_provider.go:114-121 | two equal quantities at different prices: closing one may settle the other's trade, and the portfolio is then a dollar off |
| Pairing.RecloseIff | polymarket-process-service/app/executionEngine/paper_execution_provider.go:69-108 | the provider does not check the status: settling a closed position books its profit again under every listing order, so realised profit is unchanged if and only if the exit price is the entry price, and cash is unchanged under every order if and only if every open trade that matches the position has size 0 |
| Pairing.ClosedTwice | polymarket-process-service/app/executionEngine/paper_execution_provider.go:69-108 | a run that shows it: a position that earned 2 dollars is closed again and realised profit is 4 |
| Store.Listing | polymarket-process-service/pkg/repository/store.go:299-307 | a listing holds values under distinct keys, as many as the limit leaves, in arbitrary order |
| Store.MemoryStore.ListOpenPositions | polymarket-process-service/pkg/repository/store.go:325-335 | exactly the open positions, each once |
| Store.MemoryStore.LatestAISignal | polymarket-process-service/pkg/repository/store.go:205-228 | the scan over at most 1000 listed signals about a market and news, in any order, returns a newest of those listed, or nothing when there is none |
| Store.LatestIsThisIff | polymarket-process-service/pkg/repository/store.go:217-228 | while at most 1000 signals are about a market and news, the lookup returns a given one under every listing order if and only if every newest signal about them says the same |
| Store.MemoryStore.Portfolio | polymarket-process-service/pkg/repository/store.go:337-360 | the two folds over the maps, in whatever order the maps yield, compute every figure of the order-free portfolio: cash, exposure, open and realised profit as their own sums, and the number of open positions |
| Store.MemoryStore.SaveNewsArticles | polymarket-process-service/pkg/repository/store.go:142-158 | the nested search and insert store an article exactly when no stored article has its hash |
| Store.AddArticlesKeepsHashesDistinct | polymarket-process-service/pkg/repository/store.go:142-158 | no batch ever makes two stored articles share a content hash |
| Model.ApplyLiveState | polymarket-process-service/pkg/model/market/live_state.go:6-36 | identity, category, end time and liquidity stay the stored ones; positive quotes, mid price and spread and non-empty books of the stream win, field by field; without a mid price a positive last price does, and what the stream does not quote stays stored, but for a missing spread, which becomes ask minus bid; a state without a market changes nothing |
| Model.CompleteStateDecides | polymarket-process-service/pkg/model/market/live_state.go:6-36 | a state that quotes everything decides all prices and both books whatever is stored, and laying a state over twice changes nothing more |
| Execution.PlaceOrder | polymarket-process-service/app/executionEngine/paper_execution_provider.go:23-67 | unknown market fails, nothing fillable is rejected without a trade, and otherwise one new open trade and one new open position are written on exactly the fill's terms, each with entry price times quantity equal to its dollars, in the order's market and outcome |
| Execution.EmptySideFillsAtLimit | polymarket-process-service/app/executionEngine/paper_execution_provider.go:28-39 | an order on an empty side fills completely at its limit, or without one at the best ask, for size over price shares and no slippage |
| Execution.EachSideTakesItsBook | polymarket-process-service/app/executionEngine/paper_execution_provider.go:28-31 | a sale trades on the bids and any other order on the asks, when there are some |
| Execution.MatchingOpenTrade | polymarket-process-service/app/executionEngine/paper_execution_provider.go:109-123 | the scan returns a possible outcome of the match over some listing of at most 10000 trades |
| Execution.SettlePosition | polymarket-process-service/app/executionEngine/paper_execution_provider.go:69-107 | fails only for an unknown market; otherwise the position it is handed is closed at the best bid, or its last mark when there is none, with no open profit left, and one trade, a possible match or a synthetic sale on the position's terms, is closed at that price with exit less entry times quantity as its profit |
| Execution.CreateFromRiskDecision | polymarket-process-service/app/executionEngine/execution.go:32-59 | succeeds exactly for a stored, approved decision with a stored probability decision and market; any fill, of either sign, writes one new trade and one new position on exactly its terms, which for a positive size is one opening step; no fill writes nothing |
| Execution.ExecuteExit | polymarket-process-service/app/exitEngine/exit_engine.go:30-59 | succeeds exactly for a well-formed exit with an accepted reason on a stored position in a stored market; whatever its status the position is settled at the exit price against a possible match, and closing an open one is one closing step |
| Probability.Calculate | polymarket-process-service/app/probabilityEngine/engine.go:31-93 | looks up the latest stored signal about market and news, reads the stored and the live market, saves exactly one new decision computed from them, and fails exactly when the market is unknown |
| Probability.BuyingYesCostsTheLeast | polymarket-process-service/app/probabilityEngine/engine.go:113-139 | a purchase of yes is priced at the best ask: on a book whose asks begin there, none cheaper, the least limit at which anything is offered |
| Probability.SellingYesFetchesTheMost | polymarket-process-service/app/probabilityEngine/engine.go:113-139 | a sale of yes is priced at the best bid: the highest limit at which anything is bid |
| Probability.PricesByQuote | polymarket-process-service/app/probabilityEngine/engine.go:113-139 | without the quote it wants yes is priced at the ask, the yes price, then one half; no has its own price, or else a purchase costs one less the bid and a sale fetches one less the ask |
| Probability.ProbabilityIs | polymarket-process-service/app/probabilityEngine/engine.go:36-52 | the probability of a quoted market is its mid price plus delta times confidence times reliability times 1, 0.6 or 0.3, plus 0.30 of the move from the stored to the streamed mid price, clamped to [0.01, 0.99] |
| Probability.UnquotedMarketProbability | polymarket-process-service/app/probabilityEngine/engine.go:103-111 | a market not quoted on both sides is taken at its yes price, then at one half |
| Probability.NoSignalNeverTrades | polymarket-process-service/app/probabilityEngine/engine.go:38-66 | a decision without any stored signal is no candidate where a positive confidence is asked for |
| Probability.BuyCandidate | polymarket-process-service/app/probabilityEngine/engine.go:49-66 | a decision to buy yes has edge probability minus price with the probability in [0.01, 0.99], and is a candidate exactly when the absolute edge and the confidence clear their thresholds |
| Probability.EdgeIsPriceGapIff | polymarket-process-service/app/probabilityEngine/engine.go:53-59 | the edge is the outcome's worth less its price (reversed for a sale) if and only if the request does not both sell and name no, or market probability, effective delta and momentum add up to one half before clamping |
| Probability.SellingNoIsMispriced | polymarket-process-service/app/probabilityEngine/engine.go:53-59 | such a request: selling no at exactly its worth on a market at 0.75 reports an edge of minus one half |
| Probability.NoTwoSidedEdge | polymarket-process-service/app/probabilityEngine/engine.go:53-59 | on a book whose bid does not exceed its ask, buying and selling yes never both have a positive edge, nor buying yes and buying no priced from that book |
| Probability.SignalMoveIsBounded | polymarket-process-service/app/probabilityEngine/engine.go:49-52 | with a signal in its validated ranges the probability lies within 0.20 plus 0.30 of the momentum of the market's |
| Signal.ValidatedSignalIsBounded | polymarket-process-service/app/aiSignal/signal.go:141-174 | whatever the provider returns, a signal that passes validation, or the disabled one, moves the probability by no more than that; unrelated news without streamed prices leaves it at the market's |
| Signal.DisabledNeverTrades | polymarket-process-service/app/aiSignal/signal.go:82-92 | with a positive confidence threshold the signal of a provider without a key never makes a candidate |
| Signal.AcceptedIff | polymarket-process-service/app/aiSignal/signal.go:141-174 | an answer is accepted if and only if direction and risk are among their words, a reason is given, delta, confidence and reliability are in range, and unrelated news is neutral and moves nothing |
| Signal.SignalCarriesTheAnswer | polymarket-process-service/app/aiSignal/signal.go:113-121 | the recorded signal carries delta, confidence, reliability and risk of the accepted answer, each in its field |
| Risk.KellyIdentity | polymarket-process-service/app/riskEngine/engine.go:147-154 | the Kelly fraction is (p - c) / (1 - c) for a price strictly between 0 and 1, and positive exactly when the price is such and p exceeds it |
| Risk.Evaluate | polymarket-process-service/app/riskEngine/engine.go:29-137 | saves one decision whose approval, size and first failing reason are the verdict of the checks in order, with exposures accumulated over the open positions; fails exactly when the decision or its market is unknown |
| Risk.ApprovedIff | polymarket-process-service/app/riskEngine/engine.go:53-124 | an order of the target size is approved if and only if it has an edge at a price strictly between 0 and 1, the market is tradable, loss and impact are within their limits, and the books left by filling it completely have market and category within their caps and no more open positions than allowed |
| Risk.RejectionNamesAFailure | polymarket-process-service/app/riskEngine/engine.go:53-124 | the reason of a rejection names a check that failed, in terms of the books, the market and the request |
| Risk.ApprovedSizeIsSmallest | polymarket-process-service/app/riskEngine/engine.go:102-111 | an approved size is the smallest of the Kelly share of the portfolio, the market cap and a positive requested size |
| Risk.ApprovedBounds | polymarket-process-service/app/riskEngine/engine.go:90-124 | an approved order has price strictly between 0 and 1, a probability above it, and 0 < size <= V * (p - c) / (1 - c) * KellyFraction |
| Risk.CapsSurviveExecution | polymarket-process-service/app/riskEngine/engine.go:79-124 | whatever part of an approved size is filled, market exposure stays within MaxPositionPerMarketPct and category exposure within MaxCategoryExposurePct of a portfolio value recomputed after the trade, value and daily profit do not move, and open positions stay within the limit |
| Cash.TradingKeepsCash | polymarket-process-service/app/riskEngine/engine.go:79-124 | no check looks at cash, but where it covers the positions that may still be opened, each at the cap of a market, it is never overdrawn in any state a cycle opens through |
| Cash.CautiousConfigKeepsCash | polymarket-process-service/app/riskEngine/engine.go:79-124 | starting from cash alone that is so whenever MaxTotalOpenPositions times MaxPositionPerMarketPct is at most 1 |
| Cash.SecondApprovalOverdraws | polymarket-process-service/app/riskEngine/engine.go:79-124 | with caps of 90 percent and two positions, two vetted orders in different categories overdraw 100 dollars by 80 |
| Cash.BothAreVetted | polymarket-process-service/app/riskEngine/engine.go:79-124 | two orders, each of the whole cap of its market, are vetted one after the other when a category they share has room for both |
| Cash.SecondOfCategoryIsApproved | polymarket-process-service/app/riskEngine/engine.go:90-100 | with 5 percent for a market and 20 for a category, a second position of one category is approved |
| Monitor.ExitsExactlyWhen | polymarket-process-service/app/positionEngine/monitor.go:29-58 | an exit is asked for exactly when one of the five conditions holds, and then with a reason the exit engine accepts |
| Monitor.ExitReasonIsTrue | polymarket-process-service/app/positionEngine/monitor.go:29-58 | each of the six reasons is given exactly when it is the first that applies, with the profit as a share of the exposure and the edge it was judged by |
| Monitor.ExitBooksTheMarkIff | polymarket-process-service/app/positionEngine/monitor.go:29-58 | an exit realises exactly the marked profit if and only if the stored bid it is priced at is the live price of the mark, or there is no stored bid; it realises the take-profit share if and only if its price has risen by that share |
| Monitor.TakeProfitBooksALoss | polymarket-process-service/app/positionEngine/monitor.go:29-58 | a position marked at a streamed bid of 0.6 is closed to take its profit of a dollar, and the stored bid of 0.4 books a loss of one |
| Monitor.LatestEdge | polymarket-process-service/app/positionEngine/monitor.go:109-128 | the edge is that of a newest decision on the market among at most 100 listed, in any order, or 1 when none is listed |
| Monitor.EdgeIsNewestWithinLimit | polymarket-process-service/app/positionEngine/monitor.go:109-128 | with at most 100 decisions stored it is the edge of a newest one on the market, or 1 when there is none |
| Monitor.MarkPosition | polymarket-process-service/app/positionEngine/monitor.go:70-89 | one marking step at the live best bid, or the yes price when there is none, and a decision that follows from the marked position |
| Monitor.MarkIs | polymarket-process-service/app/positionEngine/monitor.go:70-80 | a position is marked at the streamed bid, else the stored bid, and in a market without a bid at the streamed mid or last price, else the stored yes price |
| Monitor.UpdateOpenPositions | polymarket-process-service/app/positionEngine/monitor.go:60-92 | every open position in a known market is marked and judged exactly once, no other is touched, and the whole is a run of marking steps |
| Cycle.VettedTradeQuality | polymarket-process-service/app/live/service/live_run_once.go:156-175 | every trade a cycle opens had edge >= EdgeThreshold and > 0, confidence >= MinSignalConfidence, 0 < limit < 1, a positive size within the Kelly share, and fills at most its size at no more than its limit without slippage |
| Cycle.CheckPassesFillsIff | polymarket-process-service/app/riskEngine/engine.go:120-124 | the impact is checked on the live book and the order filled on the stored one: the check lets every order pass that the provider would fill completely if and only if walking the live book stays within the bound up to what the provider can fill, an empty stored book filling anything |
| Cycle.ImpactMeansPartialFill | polymarket-process-service/app/riskEngine/engine.go:120-124 | an order whose impact exceeds the bound could not have been filled completely at its limit, wherever that condition holds, as it does on sorted books that agree |
| Cycle.StoredBookFillsAnyway | polymarket-process-service/app/riskEngine/engine.go:120-124 | where they differ the check says nothing about the fill: streamed asks give an impact of 80% and the stored asks fill the order at its limit |
| Cycle.CapsHoldAfterEveryOpening | polymarket-process-service/app/live/service/live_run_once.go:156-182 | after each opening of a cycle the caps hold on the market and category traded, against a freshly recomputed value, and the open-position limit holds |
| Trail.CapsHoldThroughoutTrading | polymarket-process-service/app/live/service/live_run_once.go:129-184 | in every state the matches of a cycle lead through, no market and no category is beyond its cap that was within it at the start, and none that was beyond grows |
| Cycle.OpenPositionsStayWithinLimit | polymarket-process-service/app/live/service/live_run_once.go:79-202 | a cycle that starts within MaxTotalOpenPositions ends within it |
| Cycle.AnyNumberOfCycles | polymarket-process-service/app/live/service/live_run_once.go:79-202 | over any sequence of cycles, with markets changing in between: one sound run; open positions within the limit and counted by openings minus closings; no position closed twice; realised profit equal to the profits of all closes |
| Trail.HappenedIsStretch | polymarket-process-service/app/live/service/live_run_once.go:135-183 | whatever becomes of a match is a stretch of a cycle: the opening it may lead to was vetted by the probability and risk engines in the state it was taken in, and the counters tally |
| Trail.TrailIsStretch | polymarket-process-service/app/live/service/live_run_once.go:129-184 | so is the fold over any sequence of matches, which counts each match once and closes nothing |
| Trail.CountersSay | polymarket-process-service/app/live/service/live_run_once.go:135-183 | each counter of a match counts what it names: an answer of an enabled AI, a candidate, its approval or rejection, and a trade opened, of which approval is a condition |
| Trail.DisabledAIOpensNothing | polymarket-process-service/app/live/service/live_run_once.go:147-175 | under a positive confidence threshold a match decided on the disabled signal takes no step and counts as a match alone |
| Trail.AnswersAreUsed | polymarket-process-service/app/live/service/live_run_once.go:147-156 | while no pair of market and article is matched twice, stored signals are older than the cycle, and fewer than 1000 are about the pair, every decision uses exactly the AI's answer to its own match, under every listing order |
| Live.LiveService.ProcessMatch | polymarket-process-service/app/live/service/live_run_once.go:135-183 | the match's record happened in the books and signals before it: which signal was used, what became of it, the one opening it may take; books, signals and counters are then exactly the next state |
| Live.LiveService.TradeOn | polymarket-process-service/app/live/service/live_run_once.go:164-182 | risk and execution run back to back: the candidate just saved cannot be missing, so it is either approved or rejected, and an approved one opens exactly the vetted order or finds nothing to fill; counters and books follow its fate |
| Live.LiveService.ProcessArticle | polymarket-process-service/app/live/service/live_run_once.go:129-184 | a best-first choice of the markets that clear the threshold, one record for each match in order, each in the state the earlier ones left: books, signals and counters are the fold over exactly these matches |
| Live.LiveService.MonitorPositions | polymarket-process-service/app/live/service/live_run_once.go:186-202 | every open position in a known market is marked once and judged, exactly those whose decision asks for it are closed, in order, at the stored bid or their mark, and the counter is the number of closes |
| Live.LiveService.RunOnce | polymarket-process-service/app/live/service/live_run_once.go:79-127 | at most 100 articles are listed; those the tracker of the last 1000 does not hold are processed in order and noted; books, signals and counters are the fold over exactly all their matches followed by the monitor's marks and closes, each pinned as above; the whole is one run of vetted steps, the open-position limit is kept, and an identifier is processed again only after 1000 different others |
| Live.ReprocessedAfterAThousand | polymarket-process-service/app/live/service/seen_tracker.go:9-31 | over everything a service has ever processed, the 1000 entries before an identifier comes again are pairwise different and none of them is it, and the tracker holds at most 1000 |
| Live.LiveService.ClosePosition | polymarket-process-service/app/live/service/live_run_once.go:339-342 | closing by hand succeeds exactly for a stored position in a stored market, whatever its status, and settles it as any exit |
| Live.LiveService.Loop | polymarket-process-service/app/live/service/live_loop.go:52-85 | the live loop: cycle after cycle, with markets, streamed states and articles stored by others in between, is a history of vetted cycles whose counters tally, keeps the limit on open positions, and processes an identifier again only after 1000 different others |
| Cycle.HistoryMore | polymarket-process-service/app/live/service/live_loop.go:68-85 | one more cycle on the books the earlier ones left continues a history |
| Live.EveryUnseenIsProcessed | polymarket-process-service/app/live/service/live_run_once.go:106-112 | a listed article is skipped only when the tracker held its identifier at the start of the cycle or one of the same identifier is processed |
| Live.EveryDecisionUsesItsAnswer | polymarket-process-service/app/live/service/live_run_once.go:129-156 | with markets and articles stored under their own identifiers a cycle matches no pair twice, so every decision it takes uses exactly the AI's answer to its own match, as long as signals stored before are older than the cycle and fewer than 1000 are about the pair |
| Matcher.BestOfDistinct | polymarket-process-service/app/newsMarketMatcher/matcher.go:50-54 | a best-first choice among matches of different markets has no market twice |
| SeenTracker.SeenTracker.Add | polymarket-process-service/app/live/service/seen_tracker.go:18-31 | the queue is duplicate-free, holds the same identifiers as the set, and is always the most recent additions up to the bound |
| SeenTracker.ReprocessingIsFarApart | polymarket-process-service/app/live/service/seen_tracker.go:18-31 | between two additions of one identifier lie at least max pairwise different other identifiers, and with no bound there is no second addition |
| TextMatch.Keywords | polymarket-process-service/pkg/textmatch/textmatch.go:31-48 | the loop with its seen-set returns the canonical kept tokens, first occurrences only |
| TextMatch.Entities | polymarket-process-service/pkg/textmatch/textmatch.go:50-65 | the nested loops return the synonym phrases of the keywords, first occurrences only |
| TextRoundTrip.KeywordsAreExactly | polymarket-process-service/pkg/textmatch/textmatch.go:31-48 | the keywords are the canonical forms of exactly the tokens of two or more characters that are neither stop words nor numbers |
| TextRoundTrip.AliasesShareTheirKeyword | polymarket-process-service/pkg/textmatch/textmatch.go:18-29 | the names of one thing share their keyword and stand for the phrases of its row, for all six rows |
| TextRoundTrip.CaseDoesNotMatter | polymarket-process-service/pkg/textmatch/textmatch.go:31-32 | texts that agree when lower-cased have the same keywords and entities |
| TextRoundTrip.TokensOfJoin | polymarket-process-service/pkg/textmatch/textmatch.go:8 | tokenising words joined by blanks gives the words back |
| TextRoundTrip.CanonicalIsStable | polymarket-process-service/pkg/textmatch/textmatch.go:76-92 | canonicalising a kept token gives a kept token that canonicalises to itself |
| TextRoundTrip.EveryRowIsClosed | polymarket-process-service/pkg/textmatch/textmatch.go:18-29 | no word of a synonym phrase leads to synonyms outside the phrase's own row |
| TextRoundTrip.KeywordsRoundTrip | polymarket-process-service/pkg/textmatch/textmatch.go:31-48 | Keywords(t + " " + join(Keywords(t))) = Keywords(t) |
| TextRoundTrip.EntitiesRoundTrip | polymarket-process-service/pkg/textmatch/textmatch.go:50-65 | Entities(t + " " + join(Entities(t))) = Entities(t), although the appended phrases may add keywords |
| Matcher.PrecomputedListsAreUsed | polymarket-process-service/app/newsMarketMatcher/matcher.go:31-32 | an article carrying its own keywords and entities is scored with exactly those |
| Matcher.OverlapScore | polymarket-process-service/app/newsMarketMatcher/matcher.go:64-80 | hits of the left list in the right one over the shorter length, 0 when either is empty |
| Matcher.OverlapSymmetric | polymarket-process-service/app/newsMarketMatcher/matcher.go:64-80 | on duplicate-free lists the overlap is symmetric and lies in [0, 1] |
| Matcher.DuplicatesExceedOne | polymarket-process-service/app/newsMarketMatcher/matcher.go:64-80 | a list with a repeated word can score 2 |
| Matcher.ScoreRange | polymarket-process-service/app/newsMarketMatcher/matcher.go:36-40 | final scores lie in [0, 0.85] for all texts, because extraction never repeats a word |
| Matcher.FullMatchScores | polymarket-process-service/app/newsMarketMatcher/matcher.go:36-41 | all keywords and no entity in common score 0.45, all entities and no keyword 0.40, both 0.85 |
| Matcher.Defaults | polymarket-process-service/app/newsMarketMatcher/matcher.go:20-28 | where nothing is configured the threshold is 0.70 and three matches are kept |
| Matcher.CandidatesClear | polymarket-process-service/app/newsMarketMatcher/matcher.go:34-48 | the candidates are exactly the scored markets at or above the threshold |
| Matcher.Match | polymarket-process-service/app/newsMarketMatcher/matcher.go:30-54 | at most topN matches in descending score which, with those omitted, are exactly the candidates; nothing omitted beats anything kept |
| Cache.MemoryCache.PurgeExpired | polymarket-fetch-data-service/pkg/cache/cache.go:114-120 | purging drops every expired item and is unobservable: the last writes it stands for do not change |
| Cache.MemoryCache.SetJSON | polymarket-fetch-data-service/pkg/cache/cache.go:69-80 | records a last write with its expiry, or nothing when marshalling fails |
| Cache.MemoryCache.GetJSON | polymarket-fetch-data-service/pkg/cache/cache.go:82-98 | a key reads back its last write until that expires |
| Cache.MemoryCache.SetNX | polymarket-fetch-data-service/pkg/cache/cache.go:100-110 | wins exactly when the key reads back nothing, and writes only then |
| Cache.ReadsBackWhatWasWritten | polymarket-fetch-data-service/pkg/cache/cache.go:69-110 | over any timely run, a read before the expiry of a write finds the written data, if nothing sets the key in between |
| Cache.WinsAreSpaced | polymarket-fetch-data-service/pkg/cache/cache.go:100-110 | over any timely sequence of operations, two winning SetNX on a key with no SetJSON of it in between are at least the first one's time-to-live apart; without a time-to-live there is no second win |
| Fetcher.FreshIsDue | polymarket-fetch-data-service/app/newsFetcher/fetcher.go:51-72 | the cache's answer is the 24-hour rule: a hash is fresh exactly when a day has passed since each of its earlier admissions |
| Fetcher.FetcherService.Prepare | polymarket-fetch-data-service/app/newsFetcher/fetcher.go:52-62 | fills in missing identifier and hash and extracts the words of title and content |
| Fetcher.FetcherService.FetchNow | polymarket-fetch-data-service/app/newsFetcher/fetcher.go:33-83 | admits exactly the articles due by that rule, in order, stores them and then publishes each once; with the invariant, over any fetches two admissions of one hash are at least 24 hours apart |
| Fetcher.PublicationsAreSpaced | polymarket-fetch-data-service/app/newsFetcher/fetcher.go:63-80 | two articles of one hash are admitted at least 86400000000000 nanoseconds apart, and their news.arrived come at least a day apart less the first one's delay between admission and publication plus the second one's |
| Fetcher.DayApartIff | polymarket-fetch-data-service/app/newsFetcher/fetcher.go:63-80 | fetches whose articles wait given times between admission and sending publish every hash at most once a day, whatever is admitted when, if and only if no article waits less than an earlier one |
| Fetcher.SlowFetchThenQuick | polymarket-fetch-data-service/app/newsFetcher/fetcher.go:63-80 | a slow fetch and a quick one a day later: both admit the article, and the publications are an hour short of a day apart |
| Fetcher.PublishedIsStoredIff | polymarket-fetch-data-service/app/newsFetcher/fetcher.go:51-80 | among articles with identifiers of their own, a published one is found under its identifier after the save if and only if something was stored under it before or no article of its hash was stored when its turn came |
| Fetcher.IdentifiersFromHashesAreStored | polymarket-fetch-data-service/app/newsFetcher/gdelt_client.go:57-61 | where identifiers are taken from hashes, as the feed clients do, every published article is found under its own |
| Fetcher.RepublishedIsNotStored | polymarket-fetch-data-service/app/newsFetcher/fetcher.go:51-80 | the same content a day later under a new identifier is published and not stored |
| Fetcher.FetchedListsAreUsed | polymarket-fetch-data-service/app/newsFetcher/fetcher.go:61-62 | the matcher scores an admitted article with exactly the lists the fetcher stored |
| Stream.Channel.Offer | polymarket-process-service/app/dashboard/service/stream_service.go:109-137 | the nested non-blocking sends and receives have one of four effects on the bounded queue |
| Stream.OfferEffect | polymarket-process-service/app/dashboard/service/stream_service.go:109-137 | with room every newcomer is queued last; a full queue sheds a high-volume head for a high-volume newcomer and otherwise takes none; three event types are high-volume |
| Stream.QueuedCriticalEventsAreKept | polymarket-process-service/app/dashboard/service/stream_service.go:109-137 | over any run of offers and receives the queue stays within 32, and every critical event ever queued has been received or is still queued |
| Stream.CriticalNewcomerDroppedIff | polymarket-process-service/app/dashboard/service/stream_service.go:109-137 | a critical newcomer is dropped if and only if the queue holds 32 events, whatever they are |
| Stream.DroppedForHighVolume | polymarket-process-service/app/dashboard/service/stream_service.go:109-137 | a critical newcomer is dropped by a queue of 32 events that may all be shed |
| Stream.OrderKeptIff | polymarket-process-service/app/dashboard/service/stream_service.go:115-126 | queued critical events keep their order under an offer if and only if the queue is not full with a critical head, a different critical event behind it, and a high-volume newcomer |
| Stream.HighVolumeNewcomerReorders | polymarket-process-service/app/dashboard/service/stream_service.go:115-126 | a queue of critical events alone that a high-volume newcomer reorders |
| Stream.StreamService.Throttled | polymarket-process-service/app/dashboard/service/stream_service.go:91-107 | holds an event back exactly when some published event of its key is less than the throttle before it, or newer; what is let through keeps the published events of a key a throttle apart |
| Stream.HoldsBackIff | polymarket-process-service/app/dashboard/service/stream_service.go:91-107 | one event holds another back exactly when both are high-volume events of one type, of one entity unless of the portfolio, and less than the throttle lies between them |
| Stream.StreamService.Publish | polymarket-process-service/app/dashboard/service/stream_service.go:62-81 | one event is offered to every subscriber or to none; in every reachable state any two published events of one throttle key are at least the throttle apart, even when event times arrive out of order |
| Stream.StreamService.Subscribe | polymarket-process-service/app/dashboard/service/stream_service.go:35-54 | adds one empty queue under a new number and disturbs no other |
| KafkaConsumer.Retry | polymarket-process-service/pkg/kafka/retry.go:17-39 | attempts stop at the first success, at a cancelled wait, or after max(1, MaxAttempts) |
| KafkaConsumer.EndIsUnique | polymarket-process-service/pkg/kafka/retry.go:17-39 | the script of successes and cancelled waits determines after how many attempts retrying ends, and how |
| KafkaConsumer.SucceedsInTime | polymarket-process-service/pkg/kafka/retry.go:17-39 | a handler that fails n - 1 times and then succeeds, with n attempts configured and no wait cut short, ends in success at the n-th and in no other way |
| KafkaConsumer.GivesUpAfter | polymarket-process-service/pkg/kafka/retry.go:17-39 | retrying gives up after exactly the configured number of attempts, or after one where none is configured |
| KafkaConsumer.HandleMessage | polymarket-process-service/pkg/kafka/consumer.go:63-104 | for every behaviour of handler, context and broker: success exactly when that behaviour lets the message be settled, one commit then and none otherwise, dead-lettered exactly when undecodable or exhausted without cancellation, and never when an attempt succeeds in time |
| KafkaConsumer.ConsumeClaim | polymarket-process-service/pkg/kafka/consumer.go:136-152 | messages are handled in order whatever becomes of each, each is committed exactly when it can be settled, and the claim's position is just after the last committed one |
| KafkaConsumer.FailedMessageIsLostIff | polymarket-process-service/pkg/kafka/consumer.go:136-152 | a message that cannot be settled is passed over for good if and only if a later message of the claim can be |
| KafkaConsumer.AtLeastOnceIff | polymarket-process-service/pkg/kafka/consumer.go:136-152 | all messages before a claim's position have been settled if and only if no message that can be settled follows one that cannot |
| KafkaConsumer.LaterCommitLosesMessage | polymarket-process-service/pkg/kafka/consumer.go:136-152 | two messages that show it: a rejected one without a dead-letter producer and a handled one behind it, whose commit passes over the first |
| LiveLoop.LoopControl.Start | polymarket-process-service/app/live/service/live_loop.go:8-22 | succeeds exactly when nothing runs and makes the one live loop; in every interleaving there is one live loop while running and none otherwise, and cancel is set exactly then |
| LiveLoop.LoopControl.Stop | polymarket-process-service/app/live/service/live_loop.go:24-41 | succeeds exactly on a running loop not yet being stopped, cancels it and leaves it live; successful stops are always separated by a successful start |
| LiveLoop.LoopControl.Exit | polymarket-process-service/app/live/service/live_loop.go:56-66 | the exit of the live loop, cancelled or not, returns to the stopped state |

## Left out

- Storage, messaging, HTTP, WebSocket, feed and provider clients, logging and configuration loading: behaviour of libraries.
- Real trading: request signing and a remote API.
- The asynchronous event handlers that may run beside a cycle: the ledger results rely on risk and execution running back to back, as they do under the run lock.
- Skipping a cycle while another runs, and recovery from panics.
- Floating-point rounding, NaN and infinities; an order on an empty book at price zero divides by zero in the program and is modelled as the unfillable level that results.
- Timestamps of trades and positions, free-text reasons of orders, audit records, match records and bus publications: they do not affect the ledger.
- Decoding of JSON, hashing, and identifier generation.
- Saving markets and streamed states: single map writes, between cycles.
- Closing a subscriber's channel on unsubscription, and the mapping from topics to event types.
- Stream.StreamService.Publish: offering to all queues is one atomic step, so offers of two concurrent publications to one queue do not interleave inside an offer, and an event without a time is taken to have been stamped already.
- Fetcher.FetcherService.FetchNow: the cache calls of one fetch are taken together, so two fetches that run at once are not interleaved.
- Live.LiveService.RunOnce: the clock is read once for the whole cycle, where the program reads it at each check.
- The events a result collects for errors, and the text of the reason attached to a match.
