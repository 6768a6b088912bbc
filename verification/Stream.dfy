/** The dashboard fan-out: bounded subscriber queues that shed high-volume events, and a
    throttle per key. Offering to a queue is one atomic step. */
module Stream {
  import opened Model

  const SUBSCRIBER_BUFFER := 32

  datatype Event = Event(eventType: string, entityId: string, createdAt: int, payload: string)

  predicate IsNonCritical(eventType: string) {
    eventType == "market_state_updated" || eventType == "position_updated" || eventType == "portfolio_updated"
  }

  function ThrottleKey(e: Event): string {
    if e.eventType == "market_state_updated" then "market:" + e.entityId
    else if e.eventType == "position_updated" then "position:" + e.entityId
    else if e.eventType == "portfolio_updated" then "portfolio"
    else ""
  }

  // ---------- One queue ----------

  /** What offering e does to a queue. A full queue drops a critical newcomer; for any
      other it drops its oldest entry, unless that is critical: then the oldest goes to
      the back and the newcomer is dropped. */
  function OfferTo(q: seq<Event>, e: Event): seq<Event> {
    if |q| < SUBSCRIBER_BUFFER then q + [e]
    else if !IsNonCritical(e.eventType) then q
    else if !IsNonCritical(q[0].eventType) then q[1..] + [q[0]]
    else q[1..] + [e]
  }

  class Channel {
    var buffer: seq<Event>

    constructor ()
      ensures buffer == []
    {
      buffer := [];
    }

    /** A non-blocking send. */
    method TrySend(e: Event) returns (sent: bool)
      modifies this
      ensures sent <==> |old(buffer)| < SUBSCRIBER_BUFFER
      ensures buffer == if sent then old(buffer) + [e] else old(buffer)
    {
      sent := |buffer| < SUBSCRIBER_BUFFER;
      if sent { buffer := buffer + [e]; }
    }

    method TryReceive() returns (e: Option<Event>)
      modifies this
      ensures e == if old(buffer) == [] then None else Some(old(buffer)[0])
      ensures buffer == if old(buffer) == [] then [] else old(buffer)[1..]
    {
      if buffer == [] { return None; }
      e := Some(buffer[0]);
      buffer := buffer[1..];
    }

    method Offer(e: Event)
      requires |buffer| <= SUBSCRIBER_BUFFER
      modifies this
      ensures buffer == OfferTo(old(buffer), e) && |buffer| <= SUBSCRIBER_BUFFER
    {
      var sent := TrySend(e);
      if sent { return; }
      if IsNonCritical(e.eventType) {
        var oldest := TryReceive();
        if oldest.Some? && !IsNonCritical(oldest.value.eventType) {
          sent := TrySend(oldest.value);
          return;
        }
        sent := TrySend(e);
        return;
      }
      sent := TrySend(e);
    }
  }

  /** While there is room every newcomer is queued last. A full queue sheds its oldest
      for a high-volume newcomer when the oldest is high-volume too, and otherwise takes
      no newcomer. There are three high-volume types. */
  lemma OfferEffect(q: seq<Event>, e: Event)
    requires |q| <= 32
    ensures IsNonCritical(e.eventType) <==> e.eventType in {"market_state_updated", "position_updated", "portfolio_updated"}
    ensures |q| < 32 ==> OfferTo(q, e) == q + [e]
    ensures |q| == 32 && IsNonCritical(e.eventType) && IsNonCritical(q[0].eventType) ==>
              |OfferTo(q, e)| == 32 && OfferTo(q, e)[31] == e && OfferTo(q, e)[..31] == q[1..]
    ensures |q| == 32 && !(IsNonCritical(e.eventType) && IsNonCritical(q[0].eventType)) ==>
              multiset(OfferTo(q, e)) == multiset(q)
  {
    if |q| == 32 {
      assert q == [q[0]] + q[1..];
    }
  }

  // ---------- Whole runs of one queue ----------

  datatype QueueOp = Offering(event: Event) | Receiving

  /** A queue together with the critical events it ever accepted and handed out. */
  datatype QueueState = QueueState(buffer: seq<Event>, accepted: seq<Event>, received: seq<Event>)

  function Critical(es: seq<Event>): seq<Event> {
    if es == [] then []
    else (if IsNonCritical(es[0].eventType) then [] else [es[0]]) + Critical(es[1..])
  }

  function QueueStep(s: QueueState, op: QueueOp): QueueState {
    match op
    case Offering(e) =>
      var room := |s.buffer| < SUBSCRIBER_BUFFER;
      QueueState(OfferTo(s.buffer, e), if room then s.accepted + Critical([e]) else s.accepted, s.received)
    case Receiving =>
      if s.buffer == [] then s
      else QueueState(s.buffer[1..], s.accepted, s.received + Critical([s.buffer[0]]))
  }

  function QueueRun(s: QueueState, ops: seq<QueueOp>): QueueState
    decreases |ops|
  {
    if ops == [] then s else QueueRun(QueueStep(s, ops[0]), ops[1..])
  }

  lemma {:induction false} CriticalAppend(xs: seq<Event>, ys: seq<Event>)
    ensures Critical(xs + ys) == Critical(xs) + Critical(ys)
  {
    if xs == [] {
      assert xs + ys == ys;
    } else {
      assert (xs + ys)[1..] == xs[1..] + ys;
      CriticalAppend(xs[1..], ys);
    }
  }

  /** The critical events in a full queue stay the same multiset under any offer. */
  lemma OfferKeepsCritical(q: seq<Event>, e: Event)
    requires |q| <= SUBSCRIBER_BUFFER
    ensures |OfferTo(q, e)| <= SUBSCRIBER_BUFFER
    ensures multiset(Critical(OfferTo(q, e)))
         == multiset(Critical(q)) + multiset(if |q| < SUBSCRIBER_BUFFER then Critical([e]) else [])
  {
    if |q| < SUBSCRIBER_BUFFER {
      CriticalAppend(q, [e]);
    } else {
      assert q == [q[0]] + q[1..];
      CriticalAppend([q[0]], q[1..]);
      CriticalAppend(q[1..], [q[0]]);
      CriticalAppend(q[1..], [e]);
      assert [e][1..] == [] && [q[0]][1..] == [];
    }
  }

  ghost predicate Conserved(s: QueueState) {
    && |s.buffer| <= SUBSCRIBER_BUFFER
    && multiset(s.accepted) == multiset(s.received) + multiset(Critical(s.buffer))
  }

  lemma QueueStepConserves(s: QueueState, op: QueueOp)
    requires Conserved(s)
    ensures Conserved(QueueStep(s, op))
  {
    hide OfferTo, Critical;
    match op
    case Offering(e) => OfferKeepsCritical(s.buffer, e);
    case Receiving =>
      if s.buffer != [] {
        assert s.buffer == [s.buffer[0]] + s.buffer[1..];
        CriticalAppend([s.buffer[0]], s.buffer[1..]);
      }
  }

  /** Over any run the queue stays within its bound, and every critical event that was
      ever queued has either been received or is still queued: none is shed. */
  lemma {:induction false} QueuedCriticalEventsAreKept(s: QueueState, ops: seq<QueueOp>)
    requires Conserved(s)
    ensures Conserved(QueueRun(s, ops)) && |QueueRun(s, ops).buffer| <= 32
    decreases |ops|
  {
    if ops != [] {
      QueueStepConserves(s, ops[0]);
      QueuedCriticalEventsAreKept(QueueStep(s, ops[0]), ops[1..]);
    }
  }

  /** A critical event that was never queued is another matter: it is dropped exactly
      when the queue is full, whatever the queue holds. */
  lemma CriticalNewcomerDroppedIff(q: seq<Event>, e: Event)
    requires |q| <= SUBSCRIBER_BUFFER && !IsNonCritical(e.eventType)
    ensures multiset(Critical(OfferTo(q, e))) == multiset(Critical(q)) <==> |q| == 32
  {
    OfferKeepsCritical(q, e);
    CriticalOne(e);
    hide Critical;
    assert |multiset(Critical(q)) + multiset{e}| == |multiset(Critical(q))| + 1;
  }

  /** It is dropped even when every queued event is one that may be shed. */
  lemma DroppedForHighVolume(e: Event)
    requires !IsNonCritical(e.eventType)
    ensures var q := seq(32, i => Event("portfolio_updated", "", i, ""));
            |q| == 32 && Critical(q) == [] && OfferTo(q, e) == q
  {
    NothingCritical(seq(32, i => Event("portfolio_updated", "", i, "")));
  }

  lemma {:induction false} NothingCritical(q: seq<Event>)
    requires forall x :: x in q ==> IsNonCritical(x.eventType)
    ensures Critical(q) == []
  {
    if q != [] { NothingCritical(q[1..]); }
  }

  // ---------- Order is the price ----------

  lemma {:induction false} RotationFixed(x: Event, rest: seq<Event>)
    ensures [x] + rest <= rest + [x] <==> forall y :: y in rest ==> y == x
  {
    if rest == [] {
      assert [x] + rest == rest + [x];
    } else {
      var y, r := rest[0], rest[1..];
      assert rest == [y] + r;
      assert forall z :: z in rest <==> z == y || z in r;
      RotationFixed(x, r);
      assert [x] + rest == [x] + ([y] + r) && rest + [x] == [y] + (r + [x]);
      if y == x {
        assert [x] + rest <= rest + [x] <==> [y] + r <= r + [x] by {
          ConsPrefix(x, [y] + r, r + [x]);
        }
      } else {
        assert ([x] + rest)[0] == x && (rest + [x])[0] == y && y in rest;
      }
    }
  }

  lemma ConsPrefix(x: Event, a: seq<Event>, b: seq<Event>)
    ensures [x] + a <= [x] + b <==> a <= b
  {
    assert ([x] + a)[1..] == a && ([x] + b)[1..] == b;
    if [x] + a <= [x] + b {
      assert forall i :: 0 <= i < |a| ==> a[i] == ([x] + a)[i + 1] == ([x] + b)[i + 1] == b[i];
    }
  }

  /** The critical events already queued keep their order under an offer exactly when
      the offer does not rotate a critical event past a different one. */
  lemma OrderKeptIff(q: seq<Event>, e: Event)
    requires |q| <= SUBSCRIBER_BUFFER
    ensures Critical(q) <= Critical(OfferTo(q, e)) <==> !Overtakes(q, e)
  {
    if |q| < SUBSCRIBER_BUFFER {
      hide Critical;
      CriticalAppend(q, [e]);
    } else {
      CriticalOfFull(q, e);
      hide Critical;
      if IsNonCritical(e.eventType) && !IsNonCritical(q[0].eventType) {
        RotationFixed(q[0], Critical(q[1..]));
      }
    }
  }

  /** A queue that loses its order: critical events alone, which a high-volume newcomer
      rotates by one. */
  lemma HighVolumeNewcomerReorders()
    ensures var q := seq(SUBSCRIBER_BUFFER, i => Event("risk_approved", "", i, ""));
            !(Critical(q) <= Critical(OfferTo(q, Event("portfolio_updated", "", 0, ""))))
  {
    var q, e := seq(SUBSCRIBER_BUFFER, i => Event("risk_approved", "", i, "")), Event("portfolio_updated", "", 0, "");
    assert q[1..] == [q[1]] + q[2..];
    CriticalAppend([q[1]], q[2..]);
    CriticalOne(q[1]);
    assert q[1] in Critical(q[1..]);
    OrderKeptIff(q, e);
  }

  ghost predicate Overtakes(q: seq<Event>, e: Event) {
    && |q| == SUBSCRIBER_BUFFER && IsNonCritical(e.eventType) && !IsNonCritical(q[0].eventType)
    && exists y :: y in Critical(q[1..]) && y != q[0]
  }

  lemma CriticalOne(e: Event)
    ensures Critical([e]) == if IsNonCritical(e.eventType) then [] else [e]
  {}

  lemma CriticalOfFull(q: seq<Event>, e: Event)
    requires |q| == SUBSCRIBER_BUFFER
    ensures Critical(q) == (if IsNonCritical(q[0].eventType) then [] else [q[0]]) + Critical(q[1..])
    ensures Critical(OfferTo(q, e)) ==
            (if !IsNonCritical(e.eventType) then Critical(q)
            else if IsNonCritical(q[0].eventType) then Critical(q[1..])
            else Critical(q[1..]) + [q[0]])
  {
    assert [e][1..] == [] && [q[0]][1..] == [];
    CriticalOne(e);
    CriticalOne(q[0]);
    assert q == [q[0]] + q[1..];
    CriticalAppend([q[0]], q[1..]);
    hide Critical;
    CriticalAppend(q[1..], [q[0]]);
    CriticalAppend(q[1..], [e]);
    assert Critical(q[1..]) + [] == Critical(q[1..]);
  }

  // ---------- The service ----------

  /** Any two events of one throttle key are at least the throttle apart. */
  ghost predicate Spaced(events: seq<Event>, throttle: int) {
    forall i, j :: 0 <= i < j < |events| && ThrottleKey(events[i]) == ThrottleKey(events[j]) != "" ==>
      events[j].createdAt >= events[i].createdAt + throttle
  }

  /** lastSent is, for every key published so far, the newest time it was published at. */
  ghost predicate Remembered(events: seq<Event>, lastSent: map<string, int>) {
    && (forall i :: 0 <= i < |events| && ThrottleKey(events[i]) != "" ==>
          ThrottleKey(events[i]) in lastSent && lastSent[ThrottleKey(events[i])] >= events[i].createdAt)
    && (forall k :: k in lastSent ==> k != "" && exists i :: SentAs(events, k, lastSent[k], i))
  }

  ghost predicate SentAs(events: seq<Event>, key: string, at: int, i: int) {
    0 <= i < |events| && ThrottleKey(events[i]) == key && events[i].createdAt == at
  }

  /** An event comes too soon when some event of its key was published less than the
      throttle before it, or is newer. */
  ghost predicate TooSoon(events: seq<Event>, throttle: int, e: Event) {
    && ThrottleKey(e) != ""
    && exists i :: 0 <= i < |events| && ThrottleKey(events[i]) == ThrottleKey(e)
                   && e.createdAt < events[i].createdAt + throttle
  }

  lemma TooSoonIff(events: seq<Event>, lastSent: map<string, int>, throttle: int, e: Event)
    requires Remembered(events, lastSent)
    ensures var k := ThrottleKey(e);
            TooSoon(events, throttle, e) <==> k != "" && k in lastSent && e.createdAt - lastSent[k] < throttle
  {
    var k := ThrottleKey(e);
    if k in lastSent {
      var i :| SentAs(events, k, lastSent[k], i);
    }
  }

  /** One event holds another back only if both are high-volume events of the same type,
      about the same entity unless they are of the portfolio, and less than the throttle
      lies between them. */
  lemma HoldsBackIff(first: Event, e: Event, throttle: int)
    ensures TooSoon([first], throttle, e) <==>
              && e.eventType == first.eventType
              && (|| e.eventType == "portfolio_updated"
                  || (e.eventType in {"market_state_updated", "position_updated"} && e.entityId == first.entityId))
              && e.createdAt < first.createdAt + throttle
  {
    KeysAgreeIff(first, e);
    var events := [first];
    assert events[0] == first;
    hide ThrottleKey;
  }

  lemma KeysAgreeIff(d: Event, e: Event)
    ensures ThrottleKey(e) != "" && ThrottleKey(d) == ThrottleKey(e) <==>
              && e.eventType == d.eventType
              && (|| e.eventType == "portfolio_updated"
                  || (e.eventType in {"market_state_updated", "position_updated"} && e.entityId == d.entityId))
  {
    KeyShape(d);
    KeyShape(e);
    if ThrottleKey(d) == ThrottleKey(e) && ThrottleKey(e) != "" {
      var k := ThrottleKey(e);
      assert k[0] == 'm' <==> e.eventType == "market_state_updated";
      assert k[0] == 'm' <==> d.eventType == "market_state_updated";
    }
  }

  /** Keys of different types differ in their first or third letter, and a key ends in
      its entity. */
  lemma KeyShape(e: Event)
    ensures var k := ThrottleKey(e);
            && (e.eventType == "market_state_updated" ==> |k| >= 7 && k[0] == 'm' && k[7..] == e.entityId)
            && (e.eventType == "position_updated" ==> |k| >= 9 && k[0] == 'p' && k[2] == 's' && k[9..] == e.entityId)
            && (e.eventType == "portfolio_updated" ==> |k| >= 9 && k[0] == 'p' && k[2] == 'r')
            && (k != "" <==> e.eventType in {"market_state_updated", "position_updated", "portfolio_updated"})
  {}

  class StreamService {
    const throttle: int
    var nextId: int
    var subscribers: map<int, Channel>
    var lastSent: map<string, int>
    ghost var published: seq<Event>

    ghost predicate Valid()
      reads this, subscribers.Values
    {
      && throttle > 0
      && (forall i :: i in subscribers ==> i <= nextId && |subscribers[i].buffer| <= SUBSCRIBER_BUFFER)
      && (forall i, j :: i in subscribers && j in subscribers && i != j ==> subscribers[i] != subscribers[j])
      && Spaced(published, throttle) && Remembered(published, lastSent)
    }

    constructor (marketThrottle: int)
      ensures Valid() && subscribers == map[] && published == []
      ensures throttle == if marketThrottle <= 0 then 1_000_000_000 else marketThrottle
    {
      throttle := if marketThrottle <= 0 then 1_000_000_000 else marketThrottle;
      nextId, subscribers, lastSent, published := 0, map[], map[], [];
    }

    method Subscribe() returns (id: int, ch: Channel)
      requires Valid()
      modifies this
      ensures Valid() && fresh(ch) && ch.buffer == []
      ensures id !in old(subscribers) && subscribers == old(subscribers)[id := ch]
      ensures published == old(published) && lastSent == old(lastSent)
    {
      nextId := nextId + 1;
      id := nextId;
      ch := new Channel();
      subscribers := subscribers[id := ch];
    }

    /** Unsubscribing removes exactly this subscriber; doing it again does nothing. */
    method Unsubscribe(id: int)
      requires Valid()
      modifies this
      ensures Valid() && subscribers == old(subscribers) - {id} && nextId == old(nextId)
      ensures published == old(published) && lastSent == old(lastSent)
    {
      subscribers := subscribers - {id};
    }

    /** Whether an event is held back: exactly when it comes too soon after what was
        published. One that is let through is remembered. */
    method Throttled(e: Event) returns (held: bool)
      requires throttle > 0 && Spaced(published, throttle) && Remembered(published, lastSent)
      modifies this`lastSent
      ensures held <==> TooSoon(published, throttle, e)
      ensures held ==> lastSent == old(lastSent)
      ensures !held ==> Spaced(published + [e], throttle) && Remembered(published + [e], lastSent)
    {
      hide TooSoon, Spaced, Remembered;
      TooSoonIff(published, lastSent, throttle, e);
      var k := ThrottleKey(e);
      if k != "" {
        if k in lastSent && e.createdAt - lastSent[k] < throttle { return true; }
        lastSent := lastSent[k := e.createdAt];
      }
      SpacedMore(published, old(lastSent), e, throttle);
      RememberedMore(published, old(lastSent), lastSent, e);
      return false;
    }

    /** Publishing offers the event to every subscriber's queue, unless it is cancelled,
        untyped or comes too soon. */
    method Publish(e: Event, cancelled: bool)
      requires Valid()
      modifies this, subscribers.Values
      ensures Valid() && subscribers == old(subscribers)
      ensures var sent := !cancelled && e.eventType != "" && !TooSoon(old(published), throttle, e);
              && published == (if sent then old(published) + [e] else old(published))
              && forall i :: i in subscribers ==>
                   subscribers[i].buffer == if sent then OfferTo(old(subscribers[i].buffer), e)
                                            else old(subscribers[i].buffer)
    {
      hide OfferTo, Spaced, Remembered, TooSoon;
      if e.eventType == "" || cancelled { return; }
      var held := Throttled(e);
      if held { return; }
      published := published + [e];
      FanOut(e);
    }

    /** One offer to every subscriber's queue. */
    method FanOut(e: Event)
      requires Valid()
      modifies subscribers.Values
      ensures Valid()
      ensures forall i :: i in subscribers ==> subscribers[i].buffer == OfferTo(old(subscribers[i].buffer), e)
    {
      hide OfferTo, Spaced, Remembered;
      var rest := subscribers.Keys;
      while rest != {}
        invariant rest <= subscribers.Keys && Valid()
        invariant forall i :: i in subscribers ==>
                    subscribers[i].buffer == if i in rest then old(subscribers[i].buffer)
                                             else OfferTo(old(subscribers[i].buffer), e)
      {
        SomeElement(rest);
        var i :| i in rest;
        subscribers[i].Offer(e);
        rest := rest - {i};
      }
    }
  }

  lemma SomeElement(s: set<int>)
    ensures s == {} || exists i :: i in s
  {
    assert (forall i :: i !in s) ==> s == {};
  }

  lemma SpacedMore(published: seq<Event>, lastSent: map<string, int>, e: Event, throttle: int)
    requires Spaced(published, throttle) && Remembered(published, lastSent)
    requires var k := ThrottleKey(e); k != "" && k in lastSent ==> e.createdAt - lastSent[k] >= throttle
    ensures Spaced(published + [e], throttle)
  {}

  lemma RememberedMore(published: seq<Event>, lastSent: map<string, int>, lastSent': map<string, int>, e: Event)
    requires Remembered(published, lastSent)
    requires var k := ThrottleKey(e);
             if k == "" then lastSent' == lastSent
             else (k in lastSent ==> e.createdAt >= lastSent[k]) && lastSent' == lastSent[k := e.createdAt]
    ensures Remembered(published + [e], lastSent')
  {
    var longer := published + [e];
    forall k | k in lastSent'
      ensures k != "" && exists i :: SentAs(longer, k, lastSent'[k], i)
    {
      if k == ThrottleKey(e) {
        assert SentAs(longer, k, e.createdAt, |published|);
      } else {
        var i :| SentAs(published, k, lastSent[k], i);
        assert SentAs(longer, k, lastSent'[k], i);
      }
    }
  }
}
