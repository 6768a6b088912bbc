/** What becomes of the matches of a cycle, as a function of what the outside answers:
    each match has a fate in the state reached so far, and a cycle is the fold of its
    matches. */
module Trail {
  import opened Model
  import opened OrderBook
  import opened Ledger
  import opened LedgerTheorems
  import opened Store
  import opened Risk
  import opened Execution
  import opened Cycle
  import Probability
  import Signal

  /** What does not change within a cycle. */
  datatype Scene = Scene(cfg: Config, venue: Venue, now: real)

  /** What the matches change. */
  datatype State = State(books: Ledger, signals: map<string, StoredSignal>, counters: LiveResult)

  /** One match: the AI's answer about it, the signal the decision then used, the
      identifiers given out, and the ledger steps taken. */
  datatype MatchRecord = MatchRecord(
    article: NewsArticle, marketId: string, answer: Result<AISignal>,
    signalId: string, used: Option<AISignal>, decisionId: string, steps: seq<Step>)

  datatype Fate =
    | NoMarket
    | NoSignal
    | NoTrade
    | Refused
    | Unfilled
    | Opens(order: OrderRequest, fill: Fill, basis: ProbabilityDecision)

  ghost function FateOfCandidate(c: Scene, l: Ledger, d: ProbabilityDecision): Fate
    requires d.marketId in c.venue.markets
  {
    match VerdictFor(c.cfg, c.venue.markets, l, d, LiveMarketOf(c.venue, d.marketId), 0.0, c.now)
    case Rejected(_) => Refused
    case Approved(size) =>
      var order := OrderRequest(d.marketId, d.outcome, d.side, d.executablePrice, size);
      var fill := FillFor(c.venue.markets[d.marketId], order);
      if fill.quantity == 0.0 then Unfilled else Opens(order, fill, d)
  }

  /** A match is analysed when its market is stored and the AI answers. */
  predicate Analyzed(c: Scene, m: MatchRecord) {
    m.marketId in c.venue.markets && m.answer.Ok?
  }

  function DecisionOn(c: Scene, m: MatchRecord): ProbabilityDecision
    requires m.marketId in c.venue.markets
  {
    var market := c.venue.markets[m.marketId];
    Probability.DecisionFor(c.cfg, market, LiveMarketOf(c.venue, m.marketId), market.id in c.venue.liveStates,
                            Probability.SignalOr(m.used), m.article.id, "buy", "yes", m.decisionId, c.now)
  }

  ghost function FateOf(c: Scene, l: Ledger, m: MatchRecord): Fate
    requires KeyedMarkets(c.venue)
  {
    if m.marketId !in c.venue.markets then NoMarket
    else if m.answer.Err? then NoSignal
    else
      var d := DecisionOn(c, m);
      if !d.candidate then NoTrade else FateOfCandidate(c, l, d)
  }

  /** The steps a fate takes: one opening on exactly its terms, or none. */
  ghost predicate Realizes(fate: Fate, steps: seq<Step>) {
    if fate.Opens? then
      |steps| == 1 && steps[0].Opening? && steps[0].order == fate.order && steps[0].fill == fate.fill
      && steps[0].basis == fate.basis
    else steps == []
  }

  /** The counters the fate of a candidate moves. */
  function Judge(r: LiveResult, fate: Fate): LiveResult {
    var judged := fate.Refused? || fate.Unfilled? || fate.Opens?;
    r.(probabilityCandidates := r.probabilityCandidates + (if judged then 1 else 0),
       riskRejected := r.riskRejected + (if fate.Refused? then 1 else 0),
       riskApproved := r.riskApproved + (if judged && !fate.Refused? then 1 else 0),
       paperTradesOpened := r.paperTradesOpened + (if fate.Opens? then 1 else 0))
  }

  ghost function SignalsAfter(c: Scene, signals: map<string, StoredSignal>, m: MatchRecord): map<string, StoredSignal> {
    if Analyzed(c, m) then signals[m.signalId := StoredSignal(m.marketId, m.article.id, c.now, m.answer.value)] else signals
  }

  /** The record is what this match leads to in this state. */
  ghost predicate Happened(c: Scene, s: State, m: MatchRecord)
    requires KeyedMarkets(c.venue)
  {
    && (Analyzed(c, m) ==>
          && m.signalId !in s.signals
          && PossibleLatest(SignalsAfter(c, s.signals, m), m.marketId, m.article.id, m.used))
    && Realizes(FateOf(c, s.books, m), m.steps) && Run(s.books, m.steps)
  }

  ghost function Next(c: Scene, s: State, m: MatchRecord): State
    requires KeyedMarkets(c.venue) && Happened(c, s, m)
  {
    var aiCall := Analyzed(c, m) && !m.answer.value.disabled;
    var counted := s.counters.(matchesCreated := s.counters.matchesCreated + 1,
                               aiCalls := s.counters.aiCalls + (if aiCall then 1 else 0));
    State(After(s.books, m.steps), SignalsAfter(c, s.signals, m), Judge(counted, FateOf(c, s.books, m)))
  }

  /** What the counters of a match count: the match, an AI call that was answered by an
      enabled AI, a candidate, its rejection or its approval, and a trade opened. */
  lemma CountersSay(c: Scene, s: State, m: MatchRecord)
    requires KeyedMarkets(c.venue) && Happened(c, s, m)
    ensures var r, r' := s.counters, Next(c, s, m).counters;
            var candidate := Analyzed(c, m) && DecisionOn(c, m).candidate;
            var approved := candidate && VerdictFor(c.cfg, c.venue.markets, s.books, DecisionOn(c, m),
                                                    LiveMarketOf(c.venue, m.marketId), 0.0, c.now).Approved?;
            && r'.matchesCreated == r.matchesCreated + 1
            && r'.aiCalls == r.aiCalls + (if Analyzed(c, m) && !m.answer.value.disabled then 1 else 0)
            && r'.probabilityCandidates == r.probabilityCandidates + (if candidate then 1 else 0)
            && r'.riskApproved == r.riskApproved + (if approved then 1 else 0)
            && r'.riskRejected == r.riskRejected + (if candidate && !approved then 1 else 0)
            && r'.paperTradesOpened == r.paperTradesOpened + |m.steps| && r'.positionsClosed == r.positionsClosed
            && r'.marketsLoaded == r.marketsLoaded && r'.articlesLoaded == r.articlesLoaded
            && (|m.steps| > 0 ==> approved)
  {
    hide VerdictFor, FillFor, PossibleLatest, Run, After;
  }

  /** Without a key the AI opens nothing: a match decided on the disabled signal, under a
      positive confidence threshold, takes no step and counts as a match alone. */
  lemma DisabledAIOpensNothing(c: Scene, s: State, m: MatchRecord)
    requires KeyedMarkets(c.venue) && Happened(c, s, m) && c.cfg.minSignalConfidence > 0.0
    requires m.answer == Ok(Signal.DISABLED) && m.used == Some(Signal.DISABLED)
    ensures m.steps == [] && Next(c, s, m).books == s.books
    ensures Next(c, s, m).counters == s.counters.(matchesCreated := s.counters.matchesCreated + 1)
  {
    hide VerdictFor, FillFor, PossibleLatest, Probability.DecisionFor;
    if m.marketId in c.venue.markets {
      var market := c.venue.markets[m.marketId];
      Signal.DisabledNeverTrades(c.cfg, market, LiveMarketOf(c.venue, m.marketId), market.id in c.venue.liveStates,
                                 m.article.id, "buy", "yes", m.decisionId, c.now);
    }
  }

  /** The records are what their matches lead to, each in the state the earlier ones left. */
  ghost predicate Told(c: Scene, s: State, trail: seq<MatchRecord>)
    requires KeyedMarkets(c.venue)
    decreases |trail|, 0
  {
    trail == [] ||
    var before := trail[..|trail| - 1];
    Told(c, s, before) && Happened(c, Final(c, s, before), trail[|trail| - 1])
  }

  ghost function Final(c: Scene, s: State, trail: seq<MatchRecord>): State
    requires KeyedMarkets(c.venue) && Told(c, s, trail)
    decreases |trail|, 1
  {
    if trail == [] then s else Next(c, Final(c, s, trail[..|trail| - 1]), trail[|trail| - 1])
  }

  function TrailSteps(trail: seq<MatchRecord>): seq<Step> {
    if trail == [] then [] else TrailSteps(trail[..|trail| - 1]) + trail[|trail| - 1].steps
  }

  lemma ToldNothing(c: Scene, s: State)
    requires KeyedMarkets(c.venue)
    ensures Told(c, s, []) && Final(c, s, []) == s
  {}

  lemma ToldOneMore(c: Scene, s: State, trail: seq<MatchRecord>, m: MatchRecord)
    requires KeyedMarkets(c.venue) && Told(c, s, trail) && Happened(c, Final(c, s, trail), m)
    ensures Told(c, s, trail + [m]) && Final(c, s, trail + [m]) == Next(c, Final(c, s, trail), m)
  {
    hide Happened, Next;
    assert (trail + [m])[..|trail|] == trail;
  }

  lemma {:induction false} ToldAppend(c: Scene, s: State, first: seq<MatchRecord>, second: seq<MatchRecord>)
    requires KeyedMarkets(c.venue) && Told(c, s, first) && Told(c, Final(c, s, first), second)
    ensures Told(c, s, first + second) && Final(c, s, first + second) == Final(c, Final(c, s, first), second)
    decreases |second|
  {
    hide Happened, Next;
    if second == [] {
      assert first + second == first;
    } else {
      var before, m := second[..|second| - 1], second[|second| - 1];
      ToldAppend(c, s, first, before);
      ToldOneMore(c, s, first + before, m);
      assert (first + before) + [m] == first + second;
    }
  }

  // ---------- Every fate is a vetted step ----------

  /** What a match does is a stretch of a cycle: an opening it leads to was vetted by the
      probability and risk engines in the state it was taken in. */
  lemma HappenedIsStretch(c: Scene, s: State, m: MatchRecord)
    requires KeyedMarkets(c.venue) && PositiveConfig(c.cfg) && Sound(s.books) && Happened(c, s, m)
    ensures var s' := Next(c, s, m);
            Stretch(c.cfg, c.venue, c.now, s.books, s.counters, m.steps, s'.books, s'.counters)
  {
    hide Sound, VerdictFor, FillFor, Probability.DecisionFor, Run, After, Enabled, Apply, Vetted, VettedRun, PossibleLatest;
    SoundRun(s.books, m.steps);
    var fate, s' := FateOf(c, s.books, m), Next(c, s, m);
    if fate.Opens? {
      var d, step := DecisionOn(c, m), m.steps[0];
      Probability.BuyCandidate(c.cfg, c.venue.markets[m.marketId], LiveMarketOf(c.venue, m.marketId),
                               c.venue.markets[m.marketId].id in c.venue.liveStates, Probability.SignalOr(m.used),
                               m.article.id, m.decisionId, c.now);
      OpensIsVetted(c, s.books, d, step);
      assert m.steps == [step];
      StepOf(s.books, step);
      CountOne(step);
      OneStep(c.cfg, c.venue, c.now, s.books, s.counters, step, s'.counters);
    } else {
      NoStep(s.books);
      CountersOnly(c.cfg, c.venue, c.now, s.books, s.counters, s'.counters);
    }
  }

  lemma OpensIsVetted(c: Scene, l: Ledger, d: ProbabilityDecision, step: Step)
    requires d.marketId in c.venue.markets && FateOfCandidate(c, l, d).Opens?
    requires Realizes(FateOfCandidate(c, l, d), [step])
    requires d.candidate && d.edge == d.ourProbability - d.executablePrice && d.side == "buy" && d.outcome == "yes"
    requires Abs(d.edge) >= c.cfg.edgeThreshold && d.confidence >= c.cfg.minSignalConfidence
    ensures step.Opening? && Vetted(c.cfg, c.venue, c.now, l, step)
  {
    hide VerdictFor, FillFor;
  }

  lemma StepOf(l: Ledger, s: Step)
    requires Run(l, [s])
    ensures Enabled(l, s) && After(l, [s]) == Apply(l, s)
  {
    hide Enabled, Apply;
    assert [s][1..] == [];
  }

  lemma NoStep(l: Ledger)
    ensures Run(l, []) && After(l, []) == l
  {}

  lemma CountersOnly(cfg: Config, venue: Venue, now: real, l: Ledger, r: LiveResult, r': LiveResult)
    requires Sound(l) && Tallied(r, r', [])
    ensures Stretch(cfg, venue, now, l, r, [], l, r')
  {}

  /** A trail is a stretch of a cycle, and its counters count: every match once, and no
      position closed. */
  lemma {:induction false} TrailIsStretch(c: Scene, s: State, trail: seq<MatchRecord>)
    requires KeyedMarkets(c.venue) && PositiveConfig(c.cfg) && Sound(s.books) && Told(c, s, trail)
    ensures var s' := Final(c, s, trail);
            && Stretch(c.cfg, c.venue, c.now, s.books, s.counters, TrailSteps(trail), s'.books, s'.counters)
            && s'.counters.matchesCreated == s.counters.matchesCreated + |trail|
            && s'.counters.positionsClosed == s.counters.positionsClosed
            && s'.counters.marketsLoaded == s.counters.marketsLoaded
            && s'.counters.articlesLoaded == s.counters.articlesLoaded
    decreases |trail|
  {
    hide Sound, Happened, VettedRun, Run, After, FateOf, SignalsAfter;
    if trail == [] {
      CountersOnly(c.cfg, c.venue, c.now, s.books, s.counters, s.counters);
    } else {
      var before, m := trail[..|trail| - 1], trail[|trail| - 1];
      TrailIsStretch(c, s, before);
      var mid, s' := Final(c, s, before), Final(c, s, trail);
      HappenedIsStretch(c, mid, m);
      Chain(c.cfg, c.venue, c.now, s.books, s.counters, TrailSteps(before), mid.books, mid.counters,
            m.steps, s'.books, s'.counters);
    }
  }

  lemma {:induction false} TrailOpens(c: Scene, s: State, trail: seq<MatchRecord>)
    requires KeyedMarkets(c.venue) && Told(c, s, trail)
    ensures forall i :: 0 <= i < |TrailSteps(trail)| ==> TrailSteps(trail)[i].Opening?
    decreases |trail|
  {
    hide FateOf, Run, After, SignalsAfter, PossibleLatest;
    if trail != [] {
      TrailOpens(c, s, trail[..|trail| - 1]);
    }
  }

  /** In every state the matches of a cycle lead through, no market and no category that
      was within its cap at the start is beyond it. */
  lemma CapsHoldThroughoutTrading(c: Scene, s: State, trail: seq<MatchRecord>, i: nat)
    requires KeyedMarkets(c.venue) && PositiveConfig(c.cfg) && Sound(s.books) && Told(c, s, trail)
    requires i <= |TrailSteps(trail)|
    ensures Run(s.books, TrailSteps(trail)[..i])
    ensures NoneBeyondCap(c.cfg, c.venue.markets, s.books, After(s.books, TrailSteps(trail)[..i]))
  {
    hide Told, TrailSteps, VettedRun, NoneBeyondCap, Sound, Tallied;
    TrailIsStretch(c, s, trail);
    TrailOpens(c, s, trail);
    CapsHoldWhileOpening(c.cfg, c.venue, c.now, s.books, TrailSteps(trail), i);
  }

  // ---------- The answer just obtained is the one traded on ----------

  ghost predicate OlderThan(signals: map<string, StoredSignal>, ids: set<string>, now: real) {
    forall k :: k in ids && k in signals ==> signals[k].createdAt < now
  }

  /** The market and news of a record, which name one market and one article. */
  ghost predicate Named(m: MatchRecord) {
    m.marketId != "" && m.article.id != ""
  }

  ghost predicate OtherPair(m: MatchRecord, n: MatchRecord) {
    m.marketId != n.marketId || m.article.id != n.article.id
  }

  /** No match of a cycle is about the same market and article as another, signals stored
      before the cycle are older than it, and there are fewer than 1000 about any of its
      pairs: then every decision uses exactly the answer the AI gave for its own match,
      whatever the listing order of the stored signals. */
  lemma AnswersAreUsed(c: Scene, s: State, trail: seq<MatchRecord>, i: nat)
    requires KeyedMarkets(c.venue) && Told(c, s, trail)
    requires i < |trail| && Analyzed(c, trail[i]) && Named(trail[i])
    requires forall j :: 0 <= j < i ==> OtherPair(trail[i], trail[j])
    requires OlderThan(s.signals, AboutIds(s.signals, trail[i].marketId, trail[i].article.id), c.now)
    requires |AboutIds(s.signals, trail[i].marketId, trail[i].article.id)| < 1000
    ensures trail[i].used == Some(trail[i].answer.value)
  {
    hide Realizes, FateOf, Run, After, PossibleLatest, About;
    var m := trail[i];
    ToldPrefix(c, s, trail, i + 1);
    assert trail[..i + 1][..i] == trail[..i];
    SameAbout(c, s, trail[..i], m);
    var before := Final(c, s, trail[..i]).signals;
    AboutItself(before, m.signalId, StoredSignal(m.marketId, m.article.id, c.now, m.answer.value), m.used);
  }

  lemma {:induction false} ToldPrefix(c: Scene, s: State, trail: seq<MatchRecord>, n: nat)
    requires KeyedMarkets(c.venue) && Told(c, s, trail) && n <= |trail|
    ensures Told(c, s, trail[..n])
    decreases |trail|
  {
    hide Happened, Next;
    if n == |trail| {
      assert trail[..n] == trail;
    } else {
      assert trail[..|trail| - 1][..n] == trail[..n];
      ToldPrefix(c, s, trail[..|trail| - 1], n);
    }
  }

  /** Matches about other pairs store nothing about this one. */
  lemma {:induction false} SameAbout(c: Scene, s: State, trail: seq<MatchRecord>, m: MatchRecord)
    requires KeyedMarkets(c.venue) && Told(c, s, trail) && Named(m)
    requires forall j :: 0 <= j < |trail| ==> OtherPair(m, trail[j])
    ensures var ids, s' := AboutIds(s.signals, m.marketId, m.article.id), Final(c, s, trail);
            && AboutIds(s'.signals, m.marketId, m.article.id) == ids
            && forall k :: k in ids ==> k in s'.signals && s'.signals[k] == s.signals[k]
    decreases |trail|
  {
    hide Realizes, FateOf, Run, After, PossibleLatest;
    if trail != [] {
      SameAbout(c, s, trail[..|trail| - 1], m);
      assert OtherPair(m, trail[|trail| - 1]);
    }
  }

  /** The lookup finds a signal that is newer than all others about its pair. */
  lemma AboutItself(signals: map<string, StoredSignal>, id: string, x: StoredSignal, r: Option<AISignal>)
    requires id !in signals && PossibleLatest(signals[id := x], x.marketId, x.newsId, r)
    requires OlderThan(signals, AboutIds(signals, x.marketId, x.newsId), x.createdAt)
    requires |AboutIds(signals, x.marketId, x.newsId)| < 1000
    ensures r == Some(x.signal)
  {
    hide PossibleLatest;
    var after := signals[id := x];
    var ids := AboutIds(after, x.marketId, x.newsId);
    assert ids == AboutIds(signals, x.marketId, x.newsId) + {id};
    hide AboutIds, About;
    assert id in ids && |ids| <= 1000;
    LatestIsThisIff(after, x.marketId, x.newsId, id);
    assert forall k :: NewestOf(after, ids, k) ==> k == id;
  }
}
