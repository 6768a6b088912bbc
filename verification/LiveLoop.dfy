/** Starting and stopping the live loop. Start, Stop and the exit of a loop each run
    under one lock, so any execution is an interleaving of these steps. */
module LiveLoop {

  class LoopControl {
    var running: bool
    var stopping: bool
    var cancelSet: bool
    /** Loops whose exit step has not run yet, and those whose context is cancelled. */
    ghost var live: set<nat>
    ghost var cancelled: set<nat>
    ghost var started: nat
    /** The loop that the stored cancel function belongs to: the one started last. */
    ghost var owner: nat
    ghost var trace: seq<Event>

    ghost predicate Valid()
      reads this
    {
      && |live| == (if running then 1 else 0)
      && (cancelSet ==> owner in live) && cancelSet == running && (stopping ==> running)
      && (stopping <==> cancelled != {}) && cancelled <= live
      && (forall n :: n in live ==> n < started)
      && Alternating(trace)
      && (running ==> trace != [] && trace[|trace| - 1] == if stopping then Stopped else Started)
    }

    constructor ()
      ensures Valid() && !running && trace == []
    {
      running, stopping, cancelSet := false, false, false;
      live, cancelled, started, owner, trace := {}, {}, 0, 0, [];
    }

    /** Starting succeeds exactly when nothing runs, and makes the one live loop. */
    method Start() returns (ok: bool)
      requires Valid()
      modifies this
      ensures Valid() && running
      ensures ok == !old(running)
      ensures if ok then live == {old(started)} && !stopping && trace == old(trace) + [Started]
              else live == old(live) && stopping == old(stopping) && trace == old(trace)
    {
      if running { return false; }
      cancelSet, running, stopping := true, true, false;
      live, owner, started := live + {started}, started, started + 1;
      TraceMore(trace, Started);
      trace := trace + [Started];
      return true;
    }

    /** Stopping cancels the live loop, once: only the loop's own exit ends it. */
    method Stop() returns (ok: bool)
      requires Valid()
      modifies this
      ensures Valid()
      ensures ok == (old(running) && !old(stopping))
      ensures live == old(live) && running == old(running)
      ensures if ok then stopping && cancelled == live && trace == old(trace) + [Stopped]
              else stopping == old(stopping) && cancelled == old(cancelled) && trace == old(trace)
    {
      if !running || stopping { return false; }
      OnlyMember(live, owner);
      if cancelSet { cancelled := cancelled + {owner}; }
      stopping := true;
      TraceMore(trace, Stopped);
      trace := trace + [Stopped];
      return true;
    }

    /** A live loop ends, cancelled or not. */
    method Exit(ghost loop: nat)
      requires Valid() && loop in live
      modifies this
      ensures Valid() && !running && !stopping && !cancelSet && live == {}
      ensures trace == old(trace)
    {
      OnlyMember(live, loop);
      running, stopping, cancelSet := false, false, false;
      live, cancelled := live - {loop}, cancelled - {loop};
    }

    method Status() returns (s: string)
      requires Valid()
      ensures s == if live != {} then "running" else "stopped"
    {
      if running { return "running"; }
      return "stopped";
    }
  }

  lemma OnlyMember(s: set<nat>, x: nat)
    requires x in s && |s| == 1
    ensures s == {x}
  {
    assert |s - {x}| == 0;
  }

  // ---------- Successful calls, in order ----------

  datatype Event = Started | Stopped

  /** Between two successful Stops there is a successful Start, and the first successful
      call is a Start. */
  ghost predicate Alternating(trace: seq<Event>) {
    forall i :: 0 <= i < |trace| && trace[i].Stopped? ==> i > 0 && trace[i - 1].Started?
  }

  lemma TraceMore(trace: seq<Event>, e: Event)
    requires Alternating(trace) && (e.Stopped? ==> trace != [] && trace[|trace| - 1].Started?)
    ensures Alternating(trace + [e])
  {}
}
