/** The consumer's retry, dead-letter and commit protocol. Handlers, the broker and the
    context are an outside that a script describes, for every behaviour they may show. */
module KafkaConsumer {
  /** What the outside does while one message is handled. Attempts count from 1. */
  datatype Script = Script(
    envelopeOk: bool,             // the value decodes
    handlerKnown: bool,           // a handler for the topic or else the event type
    succeeds: nat -> bool,        // does attempt n succeed
    doneAfter: nat -> bool,       // does the wait after attempt n end by cancellation
    cancelled: bool,              // is the context cancelled once retrying has ended
    hasProducer: bool,
    dlqOk: bool)                  // does publishing to the dead-letter queue succeed

  datatype RetryConfig = RetryConfig(maxAttempts: int, backoff: int)

  function Limit(cfg: RetryConfig): (n: nat) ensures n >= 1 {
    if cfg.maxAttempts <= 0 then 1 else cfg.maxAttempts
  }

  /** A cancelled context stays cancelled. */
  ghost predicate Coherent(s: Script) {
    (exists n :: s.doneAfter(n)) ==> s.cancelled
  }

  datatype Outcome = Succeeded | Cancelled | Failed

  /** How retrying ends after n attempts: earlier ones failed without being cut short,
      and attempt n succeeded, or was followed by a cancelled wait, or was the last. */
  ghost predicate EndsAfter(cfg: RetryConfig, s: Script, n: nat, o: Outcome) {
    && 1 <= n <= Limit(cfg)
    && (forall k :: 1 <= k < n ==> !s.succeeds(k) && (cfg.backoff > 0 ==> !s.doneAfter(k)))
    && match o
       case Succeeded => s.succeeds(n)
       case Cancelled => !s.succeeds(n) && n < Limit(cfg) && cfg.backoff > 0 && s.doneAfter(n)
       case Failed => !s.succeeds(n) && n == Limit(cfg)
  }

  method Retry(cfg: RetryConfig, s: Script) returns (o: Outcome, attempts: nat)
    ensures EndsAfter(cfg, s, attempts, o)
  {
    attempts := 0;
    var max := Limit(cfg);
    while attempts < max
      invariant attempts <= max
      invariant forall k :: 1 <= k <= attempts ==> !s.succeeds(k) && (k < max && cfg.backoff > 0 ==> !s.doneAfter(k))
    {
      attempts := attempts + 1;
      if s.succeeds(attempts) {
        return Succeeded, attempts;
      }
      if attempts == max || cfg.backoff <= 0 {
        continue;
      }
      if s.doneAfter(attempts) {
        return Cancelled, attempts;
      }
    }
    return Failed, attempts;
  }

  /** The end of retrying is determined by the script: there is exactly one. */
  lemma EndIsUnique(cfg: RetryConfig, s: Script, n: nat, o: Outcome, n': nat, o': Outcome)
    requires EndsAfter(cfg, s, n, o) && EndsAfter(cfg, s, n', o')
    ensures n == n' && o == o'
  {}

  /** A handler that fails n - 1 times and then succeeds, with n attempts configured and
      no wait cut short, ends in success at the n-th: it never counts as failed. */
  lemma SucceedsInTime(cfg: RetryConfig, s: Script, n: nat)
    requires 1 <= n && (n == 1 || n <= cfg.maxAttempts) && s.succeeds(n)
    requires forall k :: 1 <= k < n ==> !s.succeeds(k) && (cfg.backoff > 0 ==> !s.doneAfter(k))
    ensures EndsAfter(cfg, s, n, Succeeded)
    ensures forall a, o :: EndsAfter(cfg, s, a, o) ==> a == n && o.Succeeded?
  {
    forall a, o | EndsAfter(cfg, s, a, o)
      ensures a == n && o.Succeeded?
    {
      EndIsUnique(cfg, s, n, Succeeded, a, o);
    }
  }

  /** Retrying gives up after exactly the configured number of attempts, and after one
      where none is configured. */
  lemma GivesUpAfter(cfg: RetryConfig, s: Script, n: nat)
    requires EndsAfter(cfg, s, n, Failed)
    ensures n == (if cfg.maxAttempts >= 1 then cfg.maxAttempts else 1) && forall k :: 1 <= k <= n ==> !s.succeeds(k)
  {}

  /** What handling one message did. */
  datatype Handled = Handled(ok: bool, attempts: nat, deadLetters: nat, commits: nat)

  /** The message is settled: its last attempt succeeded, it was dead-lettered, or there
      is no handler for it. */
  ghost predicate Settled(cfg: RetryConfig, s: Script, h: Handled) {
    || (s.envelopeOk && !s.handlerKnown && h.attempts == 0 && h.deadLetters == 0)
    || (s.envelopeOk && s.handlerKnown && EndsAfter(cfg, s, h.attempts, Succeeded) && h.deadLetters == 0)
    || (h.deadLetters == 1 && s.hasProducer && s.dlqOk)
  }

  ghost predicate Succeeds(cfg: RetryConfig, s: Script) {
    exists n :: EndsAfter(cfg, s, n, Succeeded)
  }

  /** Whether the outside lets a message be settled: an undecodable one needs the
      dead-letter queue; any other needs no handler, an attempt that succeeds in time, or
      the dead-letter queue and no cancellation. */
  ghost predicate Settles(cfg: RetryConfig, s: Script) {
    if !s.envelopeOk then s.hasProducer && s.dlqOk
    else !s.handlerKnown || Succeeds(cfg, s) || (!s.cancelled && s.hasProducer && s.dlqOk)
  }

  /** Handling succeeds exactly when the message can be settled, and commits once then and
      never otherwise; a failing handler is retried no more than the limit, and its
      message is dead-lettered only when retrying ended without success or cancellation. */
  method HandleMessage(cfg: RetryConfig, s: Script, hasCommit: bool) returns (h: Handled)
    requires Coherent(s)
    ensures h.ok <==> Settles(cfg, s)
    ensures h.ok <==> Settled(cfg, s, h)
    ensures h.commits == if h.ok && hasCommit then 1 else 0
    ensures h.attempts <= Limit(cfg) && h.deadLetters <= 1
    ensures !(s.envelopeOk && s.handlerKnown) ==> h.attempts == 0
    ensures s.envelopeOk && s.handlerKnown ==> exists o :: EndsAfter(cfg, s, h.attempts, o)
    ensures h.deadLetters == 1 <==>
            s.hasProducer && s.dlqOk
            && (!s.envelopeOk || (s.handlerKnown && !s.cancelled && EndsAfter(cfg, s, h.attempts, Failed)))
    ensures s.envelopeOk && s.handlerKnown && Succeeds(cfg, s) ==> h.deadLetters == 0 && h.ok
  {
    if !s.envelopeOk {
      h := PublishRawDLQ(s, hasCommit);
      return;
    }
    if !s.handlerKnown {
      return Handled(true, 0, 0, if hasCommit then 1 else 0);
    }
    var o, attempts := Retry(cfg, s);
    if !o.Succeeded? {
      NotSucceeded(cfg, s, attempts, o);
      if s.cancelled {
        return Handled(false, attempts, 0, 0);
      }
      if !s.hasProducer || !s.dlqOk {
        return Handled(false, attempts, 0, 0);
      }
      return Handled(true, attempts, 1, if hasCommit then 1 else 0);
    }
    return Handled(true, attempts, 0, if hasCommit then 1 else 0);
  }

  method PublishRawDLQ(s: Script, hasCommit: bool) returns (h: Handled)
    ensures h.ok <==> s.hasProducer && s.dlqOk
    ensures h == Handled(h.ok, 0, if h.ok then 1 else 0, if h.ok && hasCommit then 1 else 0)
  {
    if !s.hasProducer || !s.dlqOk {
      return Handled(false, 0, 0, 0);
    }
    return Handled(true, 0, 1, if hasCommit then 1 else 0);
  }

  lemma NotSucceeded(cfg: RetryConfig, s: Script, n: nat, o: Outcome)
    requires EndsAfter(cfg, s, n, o) && !o.Succeeded?
    ensures !EndsAfter(cfg, s, n, Succeeded) && !Succeeds(cfg, s)
  {
    forall k
      ensures !EndsAfter(cfg, s, k, Succeeded)
    {
      if EndsAfter(cfg, s, k, Succeeded) { EndIsUnique(cfg, s, n, o, k, Succeeded); }
    }
  }

  // ---------- One claim ----------

  /** Committing marks the offset after a message, and marks only move forward: the
      claim's position is just after its last committed message. */
  function Position(results: seq<Handled>): (n: nat)
    ensures n <= |results|
  {
    if results == [] then 0
    else if results[|results| - 1].commits > 0 then |results|
    else Position(results[..|results| - 1])
  }

  /** Every message handled is committed exactly when it can be settled. */
  ghost predicate Consumed(cfg: RetryConfig, scripts: seq<Script>, results: seq<Handled>) {
    && |results| == |scripts|
    && forall i :: 0 <= i < |scripts| ==> (results[i].commits > 0 <==> Settles(cfg, scripts[i]))
  }

  /** Messages are handled in order, whatever becomes of each. */
  method ConsumeClaim(cfg: RetryConfig, scripts: seq<Script>) returns (results: seq<Handled>, committed: nat)
    requires forall i :: 0 <= i < |scripts| ==> Coherent(scripts[i])
    ensures Consumed(cfg, scripts, results) && committed == Position(results)
    ensures forall i :: 0 <= i < |scripts| ==>
              && (results[i].ok <==> Settled(cfg, scripts[i], results[i]))
              && results[i].commits == if results[i].ok then 1 else 0
  {
    hide Settled, Settles, Succeeds, EndsAfter;
    results, committed := [], 0;
    assert scripts[..0] == [];
    for i := 0 to |scripts|
      invariant Consumed(cfg, scripts[..i], results) && committed == Position(results)
      invariant forall j :: 0 <= j < i ==>
                  && (results[j].ok <==> Settled(cfg, scripts[j], results[j]))
                  && results[j].commits == if results[j].ok then 1 else 0
    {
      var h := HandleMessage(cfg, scripts[i], true);
      assert (results + [h])[..i] == results;
      results := results + [h];
      if h.commits > 0 { committed := i + 1; }
    }
    assert scripts[..|scripts|] == scripts;
  }

  lemma {:induction false} PositionIsLastCommit(results: seq<Handled>)
    ensures forall i :: Position(results) <= i < |results| ==> results[i].commits == 0
    ensures Position(results) > 0 ==> results[Position(results) - 1].commits > 0
  {
    if results != [] && results[|results| - 1].commits == 0 {
      var init := results[..|results| - 1];
      PositionIsLastCommit(init);
      assert forall i :: 0 <= i < |init| ==> results[i] == init[i];
    }
  }

  /** A restart redelivers the messages from the claim's position on. A message that
      cannot be settled is passed over for good exactly when some later message of the
      claim can. */
  lemma FailedMessageIsLostIff(cfg: RetryConfig, scripts: seq<Script>, results: seq<Handled>, i: nat)
    requires Consumed(cfg, scripts, results) && i < |scripts| && !Settles(cfg, scripts[i])
    ensures i < Position(results) <==> exists j :: i < j < |scripts| && Settles(cfg, scripts[j])
  {
    hide Settles, Position;
    PositionIsLastCommit(results);
  }

  /** Delivery is at least once, over every claim: what a restart no longer delivers has
      all been settled, if and only if no message that can be settled follows one that
      cannot. */
  lemma AtLeastOnceIff(cfg: RetryConfig, scripts: seq<Script>, results: seq<Handled>)
    requires Consumed(cfg, scripts, results)
    ensures (forall i :: 0 <= i < Position(results) ==> Settles(cfg, scripts[i])) <==>
              forall i, j :: 0 <= i < j < |scripts| && Settles(cfg, scripts[j]) ==> Settles(cfg, scripts[i])
  {
    hide Settles, Position;
    PositionIsLastCommit(results);
  }

  /** Two messages that show it: the handler rejects the first and there is no producer
      for the dead-letter queue; the second is handled, and its commit passes over the
      first. */
  lemma LaterCommitLosesMessage(cfg: RetryConfig, results: seq<Handled>)
    ensures var rejected := Script(true, true, n => false, n => false, false, false, false);
            var handled := Script(true, true, n => true, n => false, false, false, false);
            Consumed(cfg, [rejected, handled], results) ==>
              Position(results) == 2 && !Settles(cfg, rejected)
  {
    var rejected := Script(true, true, n => false, n => false, false, false, false);
    var handled := Script(true, true, n => true, n => false, false, false, false);
    assert EndsAfter(cfg, handled, 1, Succeeded);
    assert Settles(cfg, [rejected, handled][1]);
  }
}
