/** The serial cycle of the live service: unseen articles are matched, judged and
    traded on, then open positions are marked and closed. What the AI answers to each
    match comes in as a parameter: any signal or failure. */
module Live {
  import opened Model
  import opened Ledger
  import opened LedgerTheorems
  import opened Store
  import opened Risk
  import opened Execution
  import opened Cycle
  import opened Trail
  import Matcher
  import Monitor
  import Probability
  import SeenTracker

  const MAX_SEEN_ARTICLES := 1000

  /** One processed article: its matches in the order they are handled, and what became
      of each. */
  datatype ArticleRecord = ArticleRecord(
    article: NewsArticle, matches: seq<Matcher.NewsMarketMatch>, trail: seq<MatchRecord>)

  /** A whole cycle: what was listed, what was processed, what the monitor decided, and
      the exits taken. */
  datatype CycleLog = CycleLog(
    markets: seq<Market>, marketKeys: seq<string>, listed: seq<NewsArticle>, articleKeys: seq<string>,
    records: seq<ArticleRecord>, marks: seq<Step>, decisions: seq<ExitDecision>, closes: seq<Step>)

  /** A turn of the loop: what is stored when it comes, the AI's answers, and the clock. */
  datatype Turn = Turn(
    venue: Venue, articles: map<string, NewsArticle>, answers: nat -> Result<AISignal>, now: real)

  class LiveService {
    const cfg: Config
    const store: MemoryStore
    const seen: SeenTracker.SeenTracker
    const newId: set<string> -> string
    const lower: char -> char
    const threshold: real
    const topN: int

    ghost predicate Ready()
      reads this, store, seen
    {
      && FreshIds(newId) && PositiveConfig(cfg) && seen.Valid() && seen.max == MAX_SEEN_ARTICLES
      && Sound(store.Books()) && KeyedMarkets(store.AllMarkets())
    }

    constructor (cfg: Config, newId: set<string> -> string, lower: char -> char, threshold: real, topN: int)
      requires FreshIds(newId) && PositiveConfig(cfg)
      ensures Ready() && store.Books() == EMPTY && this.cfg == cfg && seen.order == []
    {
      this.cfg, this.newId, this.lower, this.threshold, this.topN := cfg, newId, lower, threshold, topN;
      store := new MemoryStore();
      seen := new SeenTracker.SeenTracker(MAX_SEEN_ARTICLES);
    }

    ghost function Here(now: real): Scene
      reads store
    {
      Scene(cfg, store.AllMarkets(), now)
    }

    ghost function Now(r: LiveResult): State
      reads store
    {
      State(store.Books(), store.signals, r)
    }

    /** The AI's answer is stored, and the latest signal about the pair decides. */
    method Assess(article: NewsArticle, market: Market, signal: AISignal, now: real)
      returns (d: ProbabilityDecision, ghost m: MatchRecord)
      requires Ready() && market.id in store.markets && store.markets[market.id] == market
      modifies store`signals, store`probs
      ensures Ready()
      ensures m == MatchRecord(article, market.id, Ok(signal), m.signalId, m.used, d.id, [])
      ensures m.signalId !in old(store.signals) && store.signals == SignalsAfter(Here(now), old(store.signals), m)
      ensures PossibleLatest(store.signals, market.id, article.id, m.used)
      ensures d == DecisionOn(Here(now), m) && d.marketId == market.id && d.id in store.probs && store.probs[d.id] == d
    {
      hide Sound, SeenTracker.SeenTracker.Valid, PossibleLatest;
      var signalId := newId(store.signals.Keys);
      store.SaveAISignal(signalId, StoredSignal(market.id, article.id, now, signal));
      var decision, used := Probability.Calculate(store, cfg, newId, market.id, article.id, "buy", "yes", now);
      d := decision.value;
      m := MatchRecord(article, market.id, Ok(signal), signalId, used, d.id, []);
    }

    /** One matched market, through the AI and all four engines. */
    method ProcessMatch(article: NewsArticle, marketId: string, answer: Result<AISignal>, now: real, r: LiveResult)
      returns (r': LiveResult, ghost m: MatchRecord)
      requires Ready()
      modifies store`signals, store`probs, store`risks, store`trades, store`positions
      ensures Ready()
      ensures m.article == article && m.marketId == marketId && m.answer == answer
      ensures Happened(Here(now), old(Now(r)), m) && Now(r') == Next(Here(now), old(Now(r)), m)
    {
      hide Sound, SeenTracker.SeenTracker.Valid, PossibleLatest, Realizes, FateOfCandidate, Enabled, Apply, DecisionOn;
      NoStep(store.Books());
      NothingRealized();
      m := MatchRecord(article, marketId, answer, "", None, "", []);
      r' := r.(matchesCreated := r.matchesCreated + 1);
      if marketId !in store.markets { return; }
      var market := store.markets[marketId];
      if answer.Err? { return; }
      if !answer.value.disabled { r' := r'.(aiCalls := r'.aiCalls + 1); }
      var d;
      d, m := Assess(article, market, answer.value, now);
      if !d.candidate { return; }
      ghost var steps;
      r', steps := TradeOn(d, now, r');
      m := m.(steps := steps);
      assert DecisionOn(Here(now), m) == d by { SameDecision(Here(now), m, m.(steps := [])); }
    }

    /** Risk and execution, back to back, on a candidate just calculated. */
    method TradeOn(d: ProbabilityDecision, now: real, r: LiveResult)
      returns (r': LiveResult, ghost steps: seq<Step>)
      requires Ready()
      requires d.id in store.probs && store.probs[d.id] == d && d.marketId in store.markets
      modifies store`risks, store`trades, store`positions
      ensures Ready()
      ensures Run(old(store.Books()), steps) && After(old(store.Books()), steps) == store.Books()
      ensures var fate := FateOfCandidate(Here(now), old(store.Books()), d);
              Realizes(fate, steps) && r' == Judge(r, fate)
    {
      hide Sound, VerdictFor, FillFor, SeenTracker.SeenTracker.Valid, Enabled, Apply;
      ghost var before, venue := store.Books(), store.AllMarkets();
      NoStep(before);
      steps := [];
      var risk := Evaluate(store, cfg, newId, d.id, 0.0, now);
      assert risk.Ok?;
      r' := r.(probabilityCandidates := r.probabilityCandidates + 1);
      if !risk.value.approved {
        r' := r'.(riskRejected := r'.riskRejected + 1);
        return;
      }
      r' := r'.(riskApproved := r'.riskApproved + 1);
      ApprovedBounds(cfg, store.markets, before, d, LiveMarketOf(venue, d.marketId), 0.0, now);
      var order;
      order, steps := CreateFromRiskDecision(store, newId, risk.value.id);
      assert order.Ok?;
      if order.value.tradeId != "" {
        r' := r'.(paperTradesOpened := r'.paperTradesOpened + 1);
        SoundStep(before, steps[0]);
        RunOne(before, steps[0]);
        assert steps == [steps[0]];
      }
    }

    /** The matches of an article, best first, and one record of each, in order. */
    ghost predicate Matched(markets: seq<Market>, a: ArticleRecord) {
      && (exists omitted ::
            Matcher.BestOf(Matcher.Candidates(lower, a.article, markets, Matcher.Threshold(threshold)),
                           Matcher.TopN(topN), a.matches, omitted))
      && |a.trail| == |a.matches|
      && forall i :: 0 <= i < |a.trail| ==>
           a.trail[i].article == a.article && a.trail[i].marketId == a.matches[i].marketId
    }

    /** All matches of one article, best first, and only those. */
    method ProcessArticle(article: NewsArticle, markets: seq<Market>, answers: nat -> Result<AISignal>, now: real,
                          r: LiveResult)
      returns (r': LiveResult, ghost a: ArticleRecord)
      requires Ready()
      modifies store`signals, store`probs, store`risks, store`trades, store`positions
      ensures Ready()
      ensures a.article == article && Matched(markets, a)
      ensures Told(Here(now), old(Now(r)), a.trail) && Now(r') == Final(Here(now), old(Now(r)), a.trail)
      ensures Answered(answers, r.matchesCreated, a.trail) && r'.matchesCreated == r.matchesCreated + |a.trail|
    {
      hide Sound, SeenTracker.SeenTracker.Valid, Matcher.Candidates, Matcher.BestOf, Happened, Next, Told, Final;
      var matches, omitted := Matcher.Match(lower, article, markets, threshold, topN);
      r' := r;
      ghost var c, s, trail := Here(now), Now(r), [];
      ToldNothing(c, s);
      for i := 0 to |matches|
        invariant Ready() && Here(now) == c && |trail| == i && r'.matchesCreated == r.matchesCreated + i
        invariant Told(c, s, trail) && Now(r') == Final(c, s, trail)
        invariant Answered(answers, r.matchesCreated, trail)
        invariant forall j :: 0 <= j < i ==> trail[j].article == article && trail[j].marketId == matches[j].marketId
      {
        ghost var before := Now(r');
        ghost var m;
        r', m := ProcessMatch(article, matches[i].marketId, answers(r'.matchesCreated), now, r');
        CountsTheMatch(c, before, m);
        ToldOneMore(c, s, trail, m);
        trail := trail + [m];
      }
      a := ArticleRecord(article, matches, trail);
    }

    /** One exit decision on an open position: executed exactly when it asks for it. */
    method Exit(d: ExitDecision, now: real, r: LiveResult) returns (r': LiveResult, ghost steps: seq<Step>)
      requires Ready() && Exitable(store.positions, store.AllMarkets(), d)
      modifies store`trades, store`positions
      ensures Ready()
      ensures Stretch(cfg, store.AllMarkets(), now, old(store.Books()), r, steps, store.Books(), r')
      ensures r' == if d.shouldExit then r.(positionsClosed := r.positionsClosed + 1) else r
      ensures if d.shouldExit then |steps| == 1 && IsExit(store.AllMarkets(), old(store.positions), d, steps[0])
              else steps == []
      ensures if d.shouldExit then d.positionId in store.positions && store.positions[d.positionId].status.Closed?
              else store.positions == old(store.positions)
      ensures forall k :: k != d.positionId ==>
                (k in store.positions <==> k in old(store.positions))
                && (k in store.positions ==> store.positions[k] == old(store.positions)[k])
    {
      hide Stretch, SeenTracker.SeenTracker.Valid, MatchOutcome, Profit, Vetted;
      ghost var before := store.Books();
      r', steps := r, [];
      CountersOnly(cfg, store.AllMarkets(), now, before, r, r');
      if !d.shouldExit || d.positionId == "" { return; }
      assert PositionOk(d.positionId, store.positions[d.positionId]);
      var result;
      result, steps := ExecuteExit(store, newId, d);
      assert result.Ok?;
      r' := r.(positionsClosed := r.positionsClosed + 1);
      OneClosing(cfg, store.AllMarkets(), now, before, r, steps[0], r');
      assert steps == [steps[0]];
    }

    /** The exits among decisions on distinct open positions, in order. */
    method ExitAll(decisions: seq<ExitDecision>, now: real, r: LiveResult)
      returns (r': LiveResult, ghost steps: seq<Step>)
      requires Ready()
      requires forall i :: 0 <= i < |decisions| ==> Exitable(store.positions, store.AllMarkets(), decisions[i])
      requires forall i, j :: 0 <= i < j < |decisions| ==> decisions[i].positionId != decisions[j].positionId
      modifies store`trades, store`positions
      ensures Ready()
      ensures Stretch(cfg, store.AllMarkets(), now, old(store.Books()), r, steps, store.Books(), r')
      ensures r' == r.(positionsClosed := r.positionsClosed + |steps|)
      ensures ExitsTaken(store.AllMarkets(), old(store.positions), decisions, steps)
      ensures forall i :: 0 <= i < |decisions| ==> Obeyed(store.positions, decisions[i])
    {
      hide Stretch, SeenTracker.SeenTracker.Valid, Sound, ExitsTaken, IsExit;
      ghost var books, venue := store.Books(), store.AllMarkets();
      r', steps := r, [];
      CountersOnly(cfg, venue, now, books, r, r);
      NoExits(venue, books.positions);
      assert decisions[..0] == [];
      for i := 0 to |decisions|
        invariant Ready() && store.AllMarkets() == venue
        invariant Stretch(cfg, venue, now, books, r, steps, store.Books(), r')
        invariant r' == r.(positionsClosed := r.positionsClosed + |steps|)
        invariant ExitsTaken(venue, books.positions, decisions[..i], steps)
        invariant forall j :: i <= j < |decisions| ==>
                    Exitable(store.positions, venue, decisions[j])
                    && store.positions[decisions[j].positionId] == books.positions[decisions[j].positionId]
        invariant forall j :: 0 <= j < i ==> Obeyed(store.positions, decisions[j])
      {
        ghost var mid, midResult := store.Books(), r';
        ghost var more;
        r', more := Exit(decisions[i], now, r');
        Chain(cfg, venue, now, books, r, steps, mid, midResult, more, store.Books(), r');
        SameExit(venue, mid.positions, books.positions, decisions[i], more);
        ExitsMore(venue, books.positions, decisions[..i], decisions[i], steps, more);
        assert decisions[..i + 1] == decisions[..i] + [decisions[i]];
        steps := steps + more;
      }
      assert decisions[..|decisions|] == decisions;
    }

    /** What the monitor and the exits make of the books: every open position in a known
        market is marked once at its live price and judged, and exactly those whose
        decision asks for it are closed, at the exit price. */
    ghost predicate Monitored(venue: Venue, probs: map<string, ProbabilityDecision>, now: real, l: Ledger, marks: seq<Step>,
                              decisions: seq<ExitDecision>, closes: seq<Step>, l': Ledger)
    {
      && Run(l, marks)
      && var marked, loss := After(l, marks), PortfolioOf(l, cfg.startingBalanceUSD).dailyPnLPct <= -cfg.maxDailyLossPct;
      && Monitor.Judged(Monitor.Watch(cfg, now, venue, probs, loss), marked.positions, marks, decisions)
      && (forall k :: k in Monitor.Ids(decisions) <==>
            k in OpenIds(marked.positions) && marked.positions[k].marketId in venue.markets)
      && ExitsTaken(venue, marked.positions, decisions, closes)
      && Run(marked, closes) && After(marked, closes) == l'
      && forall i :: 0 <= i < |decisions| ==> Obeyed(l'.positions, decisions[i])
    }

    /** The monitor's round: no exit it asks for is refused. */
    method MonitorPositions(now: real, r: LiveResult)
      returns (r': LiveResult, ghost marks: seq<Step>, ghost decisions: seq<ExitDecision>, ghost closes: seq<Step>)
      requires Ready()
      modifies store`trades, store`positions
      ensures Ready()
      ensures Monitored(store.AllMarkets(), store.probs, now, old(store.Books()), marks, decisions, closes, store.Books())
      ensures Stretch(cfg, store.AllMarkets(), now, old(store.Books()), r, marks + closes, store.Books(), r')
      ensures r' == r.(positionsClosed := r.positionsClosed + |closes|)
    {
      hide SeenTracker.SeenTracker.Valid, Run, After, PortfolioOf, Sound, VettedRun, Monitor.AllMarks, Monitor.Ids,
        ExitsTaken;
      ghost var books, venue := store.Books(), store.AllMarkets();
      var judged;
      judged, marks := Monitor.UpdateOpenPositions(store, cfg, now);
      decisions := judged;
      SoundRun(books, marks);
      Marks(cfg, venue, now, books, r, marks);
      ghost var mid := store.Books();
      r', closes := ExitAll(judged, now, r);
      Chain(cfg, venue, now, books, r, marks, mid, r, closes, store.Books(), r');
    }

    /** The articles the tracker does not hold, in listed order, and only those. */
    method ProcessUnseen(articles: seq<NewsArticle>, markets: seq<Market>, answers: nat -> Result<AISignal>, now: real,
                         r: LiveResult)
      returns (r': LiveResult, ghost records: seq<ArticleRecord>)
      requires Ready()
      modifies store`signals, store`probs, store`risks, store`trades, store`positions, seen
      ensures Ready()
      ensures Articles(records) == Unseen(old(seen.order), articles)
      ensures seen.order == SeenAfter(old(seen.order), articles)
      ensures seen.history == old(seen.history) + AddedIds(Articles(records))
      ensures forall i :: 0 <= i < |records| ==> Matched(markets, records[i])
      ensures Told(Here(now), old(Now(r)), AllMatches(records))
      ensures Now(r') == Final(Here(now), old(Now(r)), AllMatches(records))
      ensures Answered(answers, r.matchesCreated, AllMatches(records))
    {
      hide SeenTracker.SeenTracker.Valid, Sound, SeenTracker.Noted, Told, Final, Answered, Matched,
        Unseen, SeenAfter, Articles, AllMatches, AddedIds;
      r', records := r, [];
      ghost var c, s, order := Here(now), Now(r), seen.order;
      ToldNothing(c, s);
      NothingProcessed(answers, r.matchesCreated);
      assert articles[0..] == articles;
      for i := 0 to |articles|
        invariant Ready() && Here(now) == c
        invariant Articles(records) + Unseen(seen.order, articles[i..]) == Unseen(order, articles)
        invariant SeenAfter(seen.order, articles[i..]) == SeenAfter(order, articles)
        invariant seen.history == old(seen.history) + AddedIds(Articles(records))
        invariant forall j :: 0 <= j < |records| ==> Matched(markets, records[j])
        invariant Told(c, s, AllMatches(records)) && Now(r') == Final(c, s, AllMatches(records))
        invariant Answered(answers, r.matchesCreated, AllMatches(records))
        invariant r'.matchesCreated == r.matchesCreated + |AllMatches(records)|
      {
        var article := articles[i];
        assert articles[i..][1..] == articles[i + 1..];
        SeenIff(seen, article.id);
        UnseenNext(seen.order, articles[i..]);
        if seen.Has(article.id) { continue; }
        ghost var a;
        r', a := ProcessArticle(article, markets, answers, now, r');
        ToldAppend(c, s, AllMatches(records), a.trail);
        AnsweredAppend(answers, r.matchesCreated, AllMatches(records), a.trail);
        OneMoreArticle(records, a);
        OneAdded(Articles(records), article);
        seen.Add(article.id);
        records := records + [a];
      }
      UnseenNone(seen.order);
    }

    /** One whole cycle, as what it listed, processed, decided and closed says, with
        exactly the counters it reports. It is a run of vetted ledger steps, and the open
        positions stay within their limit. */
    method RunOnce(answers: nat -> Result<AISignal>, now: real) returns (result: LiveResult, ghost log: CycleLog)
      requires Ready()
      modifies store`signals, store`probs, store`risks, store`trades, store`positions, seen
      ensures Ready()
      ensures IsListing(store.markets, 0, log.markets, log.marketKeys)
      ensures IsListing(store.articles, 100, log.listed, log.articleKeys)
      ensures Articles(log.records) == Unseen(old(seen.order), log.listed)
      ensures seen.order == SeenAfter(old(seen.order), log.listed)
      ensures seen.history == old(seen.history) + AddedIds(Articles(log.records))
      ensures ThousandApart(seen.history) && |seen.order| <= 1000
      ensures forall i :: 0 <= i < |log.records| ==> Matched(log.markets, log.records[i])
      ensures var c, trail := Here(now), AllMatches(log.records);
              var loaded := NOTHING_DONE.(marketsLoaded := |log.markets|, articlesLoaded := |log.listed|);
              && Told(c, old(Now(loaded)), trail) && Answered(answers, 0, trail)
              && var traded := Final(c, old(Now(loaded)), trail);
              && Monitored(c.venue, store.probs, now, traded.books, log.marks, log.decisions, log.closes, store.Books())
              && store.signals == traded.signals && result == traded.counters.(positionsClosed := |log.closes|)
      ensures Stretch(cfg, store.AllMarkets(), now, old(store.Books()), NOTHING_DONE, CycleSteps(log), store.Books(), result)
      ensures result.marketsLoaded == |store.markets| && result.articlesLoaded == Capped(|store.articles|, 100)
      ensures result.matchesCreated == |AllMatches(log.records)|
      ensures OpenCount(store.Books()) == OpenCount(old(store.Books())) + result.paperTradesOpened - result.positionsClosed
      ensures OpenCount(old(store.Books())) <= cfg.maxTotalOpenPositions ==>
                OpenCount(store.Books()) <= cfg.maxTotalOpenPositions
    {
      hide SeenTracker.SeenTracker.Valid, Sound, OpenCount, PortfolioOf, Run, After, VettedRun, Matched, Monitored,
        Told, Final, Answered, Unseen, SeenAfter, Articles, AllMatches, TrailSteps, Tallied, ThousandApart;
      ghost var books := store.Books();
      var markets, marketKeys := Listing(store.markets, 0);
      var articles, articleKeys := Listing(store.articles, 100);
      result := NOTHING_DONE.(marketsLoaded := |markets|, articlesLoaded := |articles|);
      ghost var c, s, records := Here(now), Now(result), [];
      result, records := ProcessUnseen(articles, markets, answers, now, result);
      ghost var trail, mid, traded := AllMatches(records), store.Books(), result;
      TrailIsStretch(c, s, trail);
      ghost var marks, decisions, closes;
      result, marks, decisions, closes := MonitorPositions(now, result);
      log := CycleLog(markets, marketKeys, articles, articleKeys, records, marks, decisions, closes);
      WholeCycle(c, s, log, mid, traded, store.Books(), result);
      ReprocessedAfterAThousand(this);
    }

    /** Closing a position by hand goes the way of any exit and does not look at the
        status: it succeeds exactly for a stored position in a stored market. */
    method ClosePosition(positionId: string) returns (ok: bool, ghost steps: seq<Step>)
      requires Ready()
      modifies store`trades, store`positions
      ensures ok <==> positionId in old(store.positions) && old(store.positions)[positionId].marketId in store.markets
      ensures !ok ==> store.Books() == old(store.Books())
      ensures ok ==>
                var p := old(store.positions)[positionId];
                && |steps| == 1 && steps[0].Closing? && steps[0].positionId == positionId
                && steps[0].exitPrice == ExitPrice(store.markets[p.marketId], p)
                && SettledBy(old(store.Books()), p, steps[0], store.Books())
    {
      hide SeenTracker.SeenTracker.Valid;
      KeyedPositions(store.Books());
      ManualIsAReason();
      var r;
      r, steps := ExecuteExit(store, newId, ExitDecision(true, positionId, "manual_close", 0.0, 0.0));
      ok := r.Ok?;
    }

    /** The live loop, as far as it got: one cycle after another, each on the markets,
        streamed states and articles that others have stored by then. The cycles are a
        history, so what holds of all histories holds of every execution of the loop. */
    method Loop(turns: seq<Turn>)
      returns (results: seq<LiveResult>, ghost cycles: seq<CycleRecord>, ghost logs: seq<CycleLog>)
      requires Ready() && forall i :: 0 <= i < |turns| ==> KeyedMarkets(turns[i].venue)
      modifies store, seen
      ensures Ready() && |results| == |cycles| == |logs| == |turns|
      ensures forall i :: 0 <= i < |turns| ==>
                && cycles[i].venue == turns[i].venue && cycles[i].now == turns[i].now
                && cycles[i].steps == CycleSteps(logs[i])
                && Tallied(NOTHING_DONE, results[i], cycles[i].steps)
      ensures History(cfg, old(store.Books()), cycles) && Run(old(store.Books()), AllSteps(cycles))
      ensures store.Books() == After(old(store.Books()), AllSteps(cycles))
      ensures OpenCount(old(store.Books())) <= cfg.maxTotalOpenPositions ==>
                OpenCount(store.Books()) <= cfg.maxTotalOpenPositions
      ensures seen.history == old(seen.history) + AddedOver(logs) && ThousandApart(seen.history)
    {
      hide SeenTracker.SeenTracker.Valid, Sound, OpenCount, Run, After, VettedRun, History, ThousandApart,
        AddedOver, AllSteps, Told, Final,
        Answered, Monitored, Matched, Tallied, KeyedMarkets, CycleSteps, Unseen, SeenAfter, Articles, AllMatches, AddedIds,
        IsListing;
      ghost var books := store.Books();
      results, cycles, logs := [], [], [];
      NoHistory(cfg, books);
      NothingAdded();
      for i := 0 to |turns|
        invariant Ready() && |results| == |cycles| == |logs| == i
        invariant seen.history == old(seen.history) + AddedOver(logs)
        invariant forall j :: 0 <= j < i ==>
                    && cycles[j].venue == turns[j].venue && cycles[j].now == turns[j].now
                    && cycles[j].steps == CycleSteps(logs[j])
                    && Tallied(NOTHING_DONE, results[j], cycles[j].steps)
        invariant History(cfg, books, cycles) && Run(books, AllSteps(cycles))
        invariant store.Books() == After(books, AllSteps(cycles))
        invariant OpenCount(books) <= cfg.maxTotalOpenPositions ==> OpenCount(store.Books()) <= cfg.maxTotalOpenPositions
      {
        var turn := turns[i];
        store.markets, store.liveStates, store.articles := turn.venue.markets, turn.venue.liveStates, turn.articles;
        var result, log := RunOnce(turn.answers, turn.now);
        ghost var c := CycleRecord(turn.venue, turn.now, CycleSteps(log));
        HistoryMore(cfg, books, cycles, c);
        AddedMore(logs, log);
        results, cycles, logs := results + [result], cycles + [c], logs + [log];
      }
      ReprocessedAfterAThousand(this);
    }
  }

  // ---------- What a cycle is made of ----------

  function Articles(records: seq<ArticleRecord>): seq<NewsArticle> {
    if records == [] then [] else Articles(records[..|records| - 1]) + [records[|records| - 1].article]
  }

  /** All matches of a cycle, in the order they are handled. */
  function AllMatches(records: seq<ArticleRecord>): seq<MatchRecord> {
    if records == [] then [] else AllMatches(records[..|records| - 1]) + records[|records| - 1].trail
  }

  lemma OneMoreArticle(records: seq<ArticleRecord>, a: ArticleRecord)
    ensures Articles(records + [a]) == Articles(records) + [a.article]
    ensures AllMatches(records + [a]) == AllMatches(records) + a.trail
  {
    assert (records + [a])[..|records|] == records;
  }

  function CycleSteps(log: CycleLog): seq<Step> {
    TrailSteps(AllMatches(log.records)) + log.marks + log.closes
  }

  /** The AI's n-th answer of a cycle is about its n-th match. */
  ghost predicate Answered(answers: nat -> Result<AISignal>, first: nat, trail: seq<MatchRecord>) {
    forall i :: 0 <= i < |trail| ==> trail[i].answer == answers(first + i)
  }

  lemma NothingProcessed(answers: nat -> Result<AISignal>, first: nat)
    ensures Answered(answers, first, []) && Articles([]) == [] && AllMatches([]) == [] && AddedIds([]) == []
  {}

  lemma AnsweredAppend(answers: nat -> Result<AISignal>, first: nat, a: seq<MatchRecord>, b: seq<MatchRecord>)
    requires Answered(answers, first, a) && Answered(answers, first + |a|, b)
    ensures Answered(answers, first, a + b)
  {
    forall i | 0 <= i < |a + b|
      ensures (a + b)[i].answer == answers(first + i)
    {
      if i >= |a| {
        assert b[i - |a|].answer == answers(first + |a| + (i - |a|));
      }
    }
  }

  /** The listed articles a tracker holding order does not hold when their turn comes. */
  ghost function Unseen(order: seq<string>, articles: seq<NewsArticle>): seq<NewsArticle>
    decreases |articles|
  {
    if articles == [] then []
    else if articles[0].id in order then Unseen(order, articles[1..])
    else [articles[0]] + Unseen(SeenTracker.Noted(order, articles[0].id, MAX_SEEN_ARTICLES), articles[1..])
  }

  ghost function SeenAfter(order: seq<string>, articles: seq<NewsArticle>): seq<string>
    decreases |articles|
  {
    if articles == [] then order
    else SeenAfter(SeenTracker.Noted(order, articles[0].id, MAX_SEEN_ARTICLES), articles[1..])
  }

  /** A listed article is skipped only when the tracker held it at the start of the cycle
      or another of the same identifier is processed. */
  lemma {:induction false} EveryUnseenIsProcessed(order: seq<string>, articles: seq<NewsArticle>, a: NewsArticle)
    requires a in articles
    ensures a.id in order || exists p :: p in Unseen(order, articles) && p.id == a.id
    decreases |articles|
  {
    var first := articles[0];
    if a.id != first.id {
      var next := SeenTracker.Noted(order, first.id, MAX_SEEN_ARTICLES);
      EveryUnseenIsProcessed(if first.id in order then order else next, articles[1..], a);
    }
  }

  /** The identifiers processing adds to the tracker: an empty one is never noted. */
  function AddedIds(articles: seq<NewsArticle>): seq<string> {
    if articles == [] then []
    else
      var id := articles[|articles| - 1].id;
      AddedIds(articles[..|articles| - 1]) + (if id == "" then [] else [id])
  }

  lemma OneAdded(articles: seq<NewsArticle>, a: NewsArticle)
    ensures AddedIds(articles + [a]) == AddedIds(articles) + (if a.id == "" then [] else [a.id])
  {
    assert (articles + [a])[..|articles|] == articles;
  }

  lemma UnseenNone(order: seq<string>)
    ensures Unseen(order, []) == [] && SeenAfter(order, []) == order
  {}

  lemma UnseenNext(order: seq<string>, articles: seq<NewsArticle>)
    requires articles != []
    ensures var a, rest := articles[0], articles[1..];
            var next := SeenTracker.Noted(order, a.id, MAX_SEEN_ARTICLES);
            if a.id in order then
              Unseen(order, articles) == Unseen(order, rest) && SeenAfter(order, articles) == SeenAfter(order, rest)
            else
              Unseen(order, articles) == [a] + Unseen(next, rest) && SeenAfter(order, articles) == SeenAfter(next, rest)
  {}

  lemma SeenIff(seen: SeenTracker.SeenTracker, id: string)
    requires seen.Valid()
    ensures seen.Has(id) <==> id in seen.order
  {}

  // ---------- What the tracker keeps apart ----------

  /** Before an identifier comes again, the 1000 entries right before it are pairwise
      different and none of them is that identifier. */
  ghost predicate ThousandApart(history: seq<string>) {
    forall i, j :: 0 <= i < j < |history| && history[i] == history[j] ==>
      && j - i > 1000
      && (forall a, b :: j - 1000 <= a < b < j ==> history[a] != history[b])
      && (forall a :: j - 1000 <= a < j ==> history[a] != history[j])
  }

  /** An article is processed again only after 1000 others have been, over everything a
      service has ever processed; and the tracker never holds more than 1000. */
  lemma ReprocessedAfterAThousand(service: LiveService)
    requires service.Ready()
    ensures ThousandApart(service.seen.history) && |service.seen.order| <= 1000
  {
    var history := service.seen.history;
    forall i, j | 0 <= i < j < |history| && history[i] == history[j]
      ensures j - i > 1000
      ensures forall a, b :: j - 1000 <= a < b < j ==> history[a] != history[b]
      ensures forall a :: j - 1000 <= a < j ==> history[a] != history[j]
    {
      SeenTracker.ReprocessingIsFarApart(history, service.seen.max, i, j);
      var between := history[j - 1000..j];
      assert forall a :: j - 1000 <= a < j ==> history[a] == between[a - (j - 1000)];
    }
  }

  /** The identifiers the cycles of a loop note, in order. */
  function AddedOver(logs: seq<CycleLog>): seq<string> {
    if logs == [] then [] else AddedOver(logs[..|logs| - 1]) + AddedIds(Articles(logs[|logs| - 1].records))
  }

  lemma NothingAdded()
    ensures AddedOver([]) == []
  {}

  lemma AddedMore(logs: seq<CycleLog>, log: CycleLog)
    ensures AddedOver(logs + [log]) == AddedOver(logs) + AddedIds(Articles(log.records))
  {
    assert (logs + [log])[..|logs|] == logs;
  }

  // ---------- No pair twice in a cycle ----------

  ghost predicate DistinctArticles(articles: seq<NewsArticle>) {
    forall i, j :: 0 <= i < j < |articles| ==> articles[i].id != articles[j].id
  }

  lemma {:induction false} UnseenDistinct(order: seq<string>, articles: seq<NewsArticle>)
    requires DistinctArticles(articles)
    ensures DistinctArticles(Unseen(order, articles)) && forall a :: a in Unseen(order, articles) ==> a in articles
    decreases |articles|
  {
    if articles != [] {
      var a, rest := articles[0], articles[1..];
      assert forall x :: x in rest ==> x.id != a.id;
      UnseenDistinct(order, rest);
      UnseenDistinct(SeenTracker.Noted(order, a.id, MAX_SEEN_ARTICLES), rest);
    }
  }

  lemma DistinctButLast(articles: seq<NewsArticle>, a: NewsArticle)
    requires DistinctArticles(articles + [a])
    ensures DistinctArticles(articles) && forall b :: b in articles ==> b.id != a.id
  {
    var longer := articles + [a];
    assert longer[|articles|] == a && forall k :: 0 <= k < |articles| ==> longer[k] == articles[k];
  }

  ghost predicate DistinctPairs(trail: seq<MatchRecord>) {
    forall i, j :: 0 <= i < j < |trail| ==> OtherPair(trail[j], trail[i])
  }

  lemma {:induction false} MatchesDistinct(service: LiveService, markets: seq<Market>, records: seq<ArticleRecord>)
    requires forall i, j :: 0 <= i < j < |markets| ==> markets[i].id != markets[j].id
    requires forall i :: 0 <= i < |records| ==> service.Matched(markets, records[i])
    requires DistinctArticles(Articles(records))
    ensures DistinctPairs(AllMatches(records))
    ensures forall m :: m in AllMatches(records) ==> m.article in Articles(records)
  {
    hide Matcher.Candidates, Matcher.BestOf;
    if records != [] {
      var init, a := records[..|records| - 1], records[|records| - 1];
      assert Articles(records) == Articles(init) + [a.article];
      DistinctButLast(Articles(init), a.article);
      MatchesDistinct(service, markets, init);
      assert forall m :: m in AllMatches(init) ==> m.article.id != a.article.id;
      MarketsDistinct(service, markets, a);
      assert forall m :: m in a.trail ==> m.article == a.article;
    }
  }

  lemma MarketsDistinct(service: LiveService, markets: seq<Market>, a: ArticleRecord)
    requires forall i, j :: 0 <= i < j < |markets| ==> markets[i].id != markets[j].id
    requires service.Matched(markets, a)
    ensures forall i, j :: 0 <= i < j < |a.trail| ==> a.trail[i].marketId != a.trail[j].marketId
  {
    hide Matcher.Candidates, Matcher.BestOf;
    var all := Matcher.Candidates(service.lower, a.article, markets, Matcher.Threshold(service.threshold));
    var omitted :| Matcher.BestOf(all, Matcher.TopN(service.topN), a.matches, omitted);
    Matcher.CandidatesDistinct(service.lower, a.article, markets, Matcher.Threshold(service.threshold));
    Matcher.BestOfDistinct(all, Matcher.TopN(service.topN), a.matches, omitted);
  }

  ghost predicate KeyedArticles(articles: map<string, NewsArticle>) {
    forall id :: id in articles ==> articles[id].id == id
  }

  /** Every decision of a cycle uses exactly the answer the AI gave to its own match, as
      long as the signals stored before the cycle are older than it and fewer than 1000
      of them are about the pair: with markets and articles stored under their own
      identifiers, no cycle matches a pair twice. */
  lemma EveryDecisionUsesItsAnswer(service: LiveService, c: Scene, s: State, log: CycleLog, order: seq<string>,
                                   articles: map<string, NewsArticle>, i: nat)
    requires KeyedMarkets(c.venue) && IsListing(c.venue.markets, 0, log.markets, log.marketKeys)
    requires KeyedArticles(articles) && IsListing(articles, 100, log.listed, log.articleKeys)
    requires Articles(log.records) == Unseen(order, log.listed)
    requires forall j :: 0 <= j < |log.records| ==> service.Matched(log.markets, log.records[j])
    requires Told(c, s, AllMatches(log.records)) && i < |AllMatches(log.records)|
    requires var m := AllMatches(log.records)[i];
             && Analyzed(c, m) && Named(m)
             && OlderThan(s.signals, AboutIds(s.signals, m.marketId, m.article.id), c.now)
             && |AboutIds(s.signals, m.marketId, m.article.id)| < 1000
    ensures var m := AllMatches(log.records)[i]; m.used == Some(m.answer.value)
  {
    hide Told, Unseen, Articles, AllMatches, AboutIds, Analyzed, Named, OlderThan;
    assert DistinctArticles(log.listed);
    UnseenDistinct(order, log.listed);
    MatchesDistinct(service, log.markets, log.records);
    AnswersAreUsed(c, s, AllMatches(log.records), i);
  }

  // ---------- Exits ----------

  ghost predicate Exitable(positions: map<string, Position>, venue: Venue, d: ExitDecision) {
    && d.positionId != "" && d.positionId in positions && positions[d.positionId].status.Open?
    && positions[d.positionId].marketId in venue.markets && (d.shouldExit ==> d.reason in EXIT_REASONS)
  }

  ghost predicate Obeyed(positions: map<string, Position>, d: ExitDecision) {
    d.positionId in positions && (positions[d.positionId].status.Closed? <==> d.shouldExit)
  }

  /** The step closes the decision's position at the stored bid or, without one, at its
      mark. */
  ghost predicate IsExit(venue: Venue, positions: map<string, Position>, d: ExitDecision, s: Step) {
    && d.positionId in positions && positions[d.positionId].marketId in venue.markets
    && s.Closing? && s.positionId == d.positionId
    && s.exitPrice == ExitPrice(venue.markets[positions[d.positionId].marketId], positions[d.positionId])
  }

  /** One close for each decision that asks for one, in order, and no other. */
  ghost predicate ExitsTaken(venue: Venue, positions: map<string, Position>, decisions: seq<ExitDecision>, closes: seq<Step>)
    decreases |decisions|
  {
    if decisions == [] then closes == []
    else
      var before, d := decisions[..|decisions| - 1], decisions[|decisions| - 1];
      if !d.shouldExit then ExitsTaken(venue, positions, before, closes)
      else
        && closes != [] && IsExit(venue, positions, d, closes[|closes| - 1])
        && ExitsTaken(venue, positions, before, closes[..|closes| - 1])
  }

  lemma NoExits(venue: Venue, positions: map<string, Position>)
    ensures ExitsTaken(venue, positions, [], [])
  {}

  lemma ExitsMore(venue: Venue, positions: map<string, Position>, decisions: seq<ExitDecision>, d: ExitDecision,
                  closes: seq<Step>, more: seq<Step>)
    requires ExitsTaken(venue, positions, decisions, closes)
    requires if d.shouldExit then |more| == 1 && IsExit(venue, positions, d, more[0]) else more == []
    ensures ExitsTaken(venue, positions, decisions + [d], closes + more)
  {
    hide IsExit, ExitsTaken;
    var longer, all := decisions + [d], closes + more;
    assert longer[..|decisions|] == decisions && longer[|decisions|] == d;
    if d.shouldExit {
      assert all[..|closes|] == closes && all[|closes|] == more[0];
    } else {
      assert all == closes;
    }
    ExitsOfLast(venue, positions, longer, all);
  }

  lemma ExitsOfLast(venue: Venue, positions: map<string, Position>, decisions: seq<ExitDecision>, closes: seq<Step>)
    requires decisions != []
    ensures var n, c := |decisions| - 1, |closes| - 1;
            ExitsTaken(venue, positions, decisions, closes) <==>
              if !decisions[n].shouldExit then ExitsTaken(venue, positions, decisions[..n], closes)
              else closes != [] && IsExit(venue, positions, decisions[n], closes[c])
                   && ExitsTaken(venue, positions, decisions[..n], closes[..c])
  {
    hide IsExit;
  }

  lemma SameExit(venue: Venue, positions: map<string, Position>, others: map<string, Position>, d: ExitDecision,
                 more: seq<Step>)
    requires if d.shouldExit then |more| == 1 && IsExit(venue, positions, d, more[0]) else more == []
    requires d.positionId in positions && d.positionId in others && positions[d.positionId] == others[d.positionId]
    ensures d.shouldExit ==> |more| == 1 && IsExit(venue, others, d, more[0])
  {}

  // ---------- Pieces of the argument ----------

  lemma KeyedPositions(l: Ledger)
    requires Sound(l)
    ensures "" !in l.positions
  {}

  lemma ManualIsAReason()
    ensures "manual_close" in EXIT_REASONS
  {}

  lemma NothingRealized()
    ensures forall fate: Fate :: !fate.Opens? ==> Realizes(fate, [])
  {}

  lemma SameDecision(c: Scene, m: MatchRecord, n: MatchRecord)
    requires n == m.(steps := n.steps) && m.marketId in c.venue.markets
    ensures DecisionOn(c, m) == DecisionOn(c, n)
  {}

  lemma CountsTheMatch(c: Scene, s: State, m: MatchRecord)
    requires KeyedMarkets(c.venue) && Happened(c, s, m)
    ensures Next(c, s, m).counters.matchesCreated == s.counters.matchesCreated + 1
  {}

  lemma OneClosing(cfg: Config, venue: Venue, now: real, l: Ledger, r: LiveResult, s: Step, r': LiveResult)
    requires Sound(l) && s.Closing? && Enabled(l, s)
    requires r' == r.(positionsClosed := r.positionsClosed + 1)
    ensures Stretch(cfg, venue, now, l, r, [s], Apply(l, s), r')
  {
    hide Enabled, Apply, Sound;
    CountOne(s);
    OneStep(cfg, venue, now, l, r, s, r');
  }

  lemma {:induction false} Marks(cfg: Config, venue: Venue, now: real, l: Ledger, r: LiveResult, steps: seq<Step>)
    requires Sound(l) && Run(l, steps) && Monitor.AllMarks(steps)
    ensures Stretch(cfg, venue, now, l, r, steps, After(l, steps), r)
    decreases |steps|
  {
    hide Enabled, Apply, Sound;
    if steps != [] {
      SoundStep(l, steps[0]);
      Marks(cfg, venue, now, Apply(l, steps[0]), r, steps[1..]);
    }
  }

  lemma WholeCycle(c: Scene, s: State, log: CycleLog, mid: Ledger, traded: LiveResult, l': Ledger, r: LiveResult)
    requires Sound(s.books)
    requires s.counters == NOTHING_DONE.(marketsLoaded := s.counters.marketsLoaded,
                                         articlesLoaded := s.counters.articlesLoaded)
    requires Stretch(c.cfg, c.venue, c.now, s.books, s.counters, TrailSteps(AllMatches(log.records)), mid, traded)
    requires Stretch(c.cfg, c.venue, c.now, mid, traded, log.marks + log.closes, l', r)
    ensures Stretch(c.cfg, c.venue, c.now, s.books, NOTHING_DONE, CycleSteps(log), l', r)
    ensures OpenCount(l') == OpenCount(s.books) + r.paperTradesOpened - r.positionsClosed
    ensures OpenCount(s.books) <= c.cfg.maxTotalOpenPositions ==> OpenCount(l') <= c.cfg.maxTotalOpenPositions
  {
    hide Stretch, Sound, OpenCount, TrailSteps, AllMatches;
    var first := TrailSteps(AllMatches(log.records));
    CountersOnly(c.cfg, c.venue, c.now, s.books, NOTHING_DONE, s.counters);
    Chain(c.cfg, c.venue, c.now, s.books, NOTHING_DONE, [], s.books, s.counters, first, mid, traded);
    assert [] + first == first;
    Chain(c.cfg, c.venue, c.now, s.books, NOTHING_DONE, first, mid, traded, log.marks + log.closes, l', r);
    assert first + (log.marks + log.closes) == CycleSteps(log);
    StretchCounts(c.cfg, c.venue, c.now, s.books, CycleSteps(log), l', r);
  }

  lemma StretchCounts(cfg: Config, venue: Venue, now: real, l: Ledger, steps: seq<Step>, l': Ledger, r: LiveResult)
    requires Sound(l) && Stretch(cfg, venue, now, l, NOTHING_DONE, steps, l', r)
    ensures OpenCount(l') == OpenCount(l) + r.paperTradesOpened - r.positionsClosed
    ensures OpenCount(l) <= cfg.maxTotalOpenPositions ==> OpenCount(l') <= cfg.maxTotalOpenPositions
  {
    hide OpenCount, Sound, VettedRun, Run, After;
    OpenCountOverRun(l, steps);
    if OpenCount(l) <= cfg.maxTotalOpenPositions {
      OpenPositionsStayWithinLimit(cfg, venue, now, l, steps);
    }
  }
}
