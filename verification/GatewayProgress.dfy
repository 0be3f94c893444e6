/** No request hangs: the gateway's threads use up what they have to do, and from every state of a run
  all of them can be brought to an end, whatever the backend replies. */
module GatewayProgress {
  import opened Receipts
  import opened EmitterLaws
  import E = EmitterRuns
  import opened EmitterRunLaws
  import opened Gateway
  import opened GatewayRuns

  // ---------- every step counts ----------

  function StageRank(stage: Stage): nat {
    match stage
    case Received => 3
    case Awaiting => 2
    case Emitting(_) => 1
    case _ => 0
  }

  function ThreadRank(threads: seq<Thread>): nat {
    if threads == [] then 0 else StageRank(threads[0].stage) + ThreadRank(threads[1..])
  }

  lemma {:induction false} RankReplaced(threads: seq<Thread>, i: nat, thread: Thread)
    requires i < |threads|
    ensures ThreadRank(threads[i := thread]) ==
            ThreadRank(threads) - StageRank(threads[i].stage) + StageRank(thread.stage)
  {
    var threads' := threads[i := thread];
    if i == 0 {
      assert threads'[1..] == threads[1..];
    } else {
      RankReplaced(threads[1..], i - 1, thread);
      assert threads'[1..] == threads[1..][i - 1 := thread];
    }
  }

  lemma {:induction false} StagesGoOn(config: Config, request: Request, reply: Reply, call: nat)
    ensures StageRank(Admitted(config, request)) <= 2
    ensures StageRank(Concluded(config, request, reply)) == 0
    ensures StageRank(Replied(config, request, reply, call).0) <= 1
  {
    hide Admit, Answer, Decide;
  }

  /** With no new request every step uses something up: a thread goes on to its next stage, or the
    ledger step counts as it does there. So no run goes on without new requests. */
  lemma {:induction false} EveryStepCounts(config: Config, hash: string -> Digest, base: string, n0: nat, s: System,
                                           e: Event)
    requires Chained(hash, base, n0) && Inv(config, hash, base, s) && Enabled(config, s, e) && !e.Arrive?
    ensures var s' := NextSystem(config, hash, s, e);
            || ThreadRank(s'.threads) < ThreadRank(s.threads)
            || (&& ThreadRank(s'.threads) == ThreadRank(s.threads)
                && (|| TotalRank(s'.ledger.calls) < TotalRank(s.ledger.calls)
                    || (TotalRank(s'.ledger.calls) == TotalRank(s.ledger.calls)
                        && 0 <= Remaining(s'.ledger) < Remaining(s.ledger))))
  {
    hide Chained, Inv, Admitted, Concluded, Replied, ThreadRank, TotalRank, Remaining, E.NextState, E.Enabled, InScope;
    var s' := NextSystem(config, hash, s, e);
    match e
    case Admission(i) =>
      StagesGoOn(config, s.threads[i].request, Unreachable, 0);
      RankReplaced(s.threads, i, s'.threads[i]);
    case Receive(i, reply) =>
      StagesGoOn(config, s.threads[i].request, reply, |s.ledger.calls|);
      RankReplaced(s.threads, i, s'.threads[i]);
    case Finish(i) =>
      if s.threads[i].reply.Some? { StagesGoOn(config, s.threads[i].request, s.threads[i].reply.value, 0); }
      RankReplaced(s.threads, i, s'.threads[i]);
    case Emit(step) =>
      LedgerParts(config, hash, base, n0, s);
      EmitterRunLaws.EveryStepCounts(hash, base, s.ledger, step);
  }

  lemma {:induction false} LedgerParts(config: Config, hash: string -> Digest, base: string, n0: nat, s: System)
    requires Chained(hash, base, n0) && Inv(config, hash, base, s)
    ensures E.Inv(hash, base, s.ledger) && Threads(config, s)
  {
    hide Chained, Reachable, Threads, Owned, CountDue, E.Inv;
    ReachableInv(hash, base, n0, s.ledger);
  }

  // ---------- every request can be settled ----------

  predicate AllSettled(s: System) {
    forall i :: 0 <= i < |s.threads| ==> Settled(s.threads[i])
  }

  /** The replies a backend gives to the requests that reach it; no count in them is a float. */
  ghost predicate Answers(config: Config, backend: Request -> Reply) {
    forall request :: InScope(config, request, backend(request))
  }

  /** A backend that is down gives such replies. */
  lemma {:induction false} DownAnswers(config: Config)
    ensures Answers(config, request => Unreachable)
  {
    hide ResolveDigest, Prepare, ReceiptArgs;
  }

  /** Neither an arrival nor a crash, and the backend answers as it does. */
  ghost predicate GoesOn(s: System, e: Event, backend: Request -> Reply) {
    && !e.Arrive? && (e.Emit? ==> !e.step.Crash?)
    && (e.Receive? ==> e.thread < |s.threads| && e.reply == backend(s.threads[e.thread].request))
  }

  /** Some unsettled thread, or the ledger call it waits for, can take a step now. */
  lemma {:induction false} SomeStep(config: Config, hash: string -> Digest, base: string, n0: nat, s: System,
                                    backend: Request -> Reply, now: string) returns (e: Event)
    requires Chained(hash, base, n0) && Inv(config, hash, base, s) && Answers(config, backend) && !AllSettled(s)
    ensures Enabled(config, s, e) && GoesOn(s, e, backend)
  {
    hide Chained, Inv, InScope, Emission, E.Inv, E.Enabled, Admitted, Concluded;
    LedgerParts(config, hash, base, n0, s);
    var i: nat :| i < |s.threads| && !Settled(s.threads[i]);
    assert ThreadInv(config, s.ledger, s.threads[i]);
    match s.threads[i].stage
    case Received => e := Admission(i);
    case Awaiting =>
      assert InScope(config, s.threads[i].request, backend(s.threads[i].request));
      e := Receive(i, backend(s.threads[i].request));
    case Emitting(call) =>
      if E.Finished(s.ledger.calls[call].phase) {
        e := Finish(i);
      } else {
        assert !AllFinished(s.ledger);
        var step := EmitterRunLaws.SomeStep(hash, base, s.ledger, now);
        e := Emit(step);
      }
  }

  /** No deadlock: from every state of a run all requests can be settled without a crash, whatever the
    backend replies. If there was no crash before, the system is then quiet, so that
    `GatewayConserves` and `GatewayVerdict` apply. */
  lemma {:induction false} EveryRequestCanSettle(config: Config, hash: string -> Digest, base: string, n0: nat,
                                                 s: System, backend: Request -> Reply, now: string)
    returns (states: seq<System>, events: seq<Event>)
    requires Chained(hash, base, n0) && Inv(config, hash, base, s) && Answers(config, backend)
    ensures IsRun(config, hash, states, events) && states[0] == s && AllSettled(states[|events|])
    ensures forall k :: 0 <= k < |events| ==> GoesOn(states[k], events[k], backend)
    ensures !E.SomeCrash(s.ledger) ==> Quiet(states[|events|])
    decreases ThreadRank(s.threads), TotalRank(s.ledger.calls), Remaining(s.ledger)
  {
    hide NextSystem, Inv, Chained, Enabled, ThreadRank, TotalRank, Remaining, AllSettled, GoesOn, Answers, E.SomeCrash,
         Quiet;
    if AllSettled(s) {
      states, events := [s], [];
      SettledIsQuiet(s);
    } else {
      var e := SomeStep(config, hash, base, n0, s, backend, now);
      GoesOnParts(s, e, backend);
      EveryStepCounts(config, hash, base, n0, s, e);
      KeepsInv(config, hash, base, s, e);
      NoNewCrash(config, hash, s, e);
      states, events := EveryRequestCanSettle(config, hash, base, n0, NextSystem(config, hash, s, e), backend, now);
      states, events := [s] + states, [e] + events;
    }
  }

  lemma {:induction false} SettledIsQuiet(s: System)
    requires AllSettled(s)
    ensures !E.SomeCrash(s.ledger) ==> Quiet(s)
  {
  }

  lemma {:induction false} GoesOnParts(s: System, e: Event, backend: Request -> Reply)
    requires GoesOn(s, e, backend)
    ensures !e.Arrive? && (e.Emit? ==> !e.step.Crash?)
  {
  }

  lemma {:induction false} NoNewCrash(config: Config, hash: string -> Digest, s: System, e: Event)
    requires Enabled(config, s, e) && (e.Emit? ==> !e.step.Crash?)
    ensures E.SomeCrash(NextSystem(config, hash, s, e).ledger) ==> E.SomeCrash(s.ledger)
  {
    hide Admitted, Concluded, Replied, InScope, E.NextState, E.Enabled, E.SomeCrash;
    if e.Emit? {
      NoCrashHere(hash, s.ledger, e.step);
    } else {
      OneMoreOpened(s.ledger, NextSystem(config, hash, s, e).ledger);
    }
  }

  lemma {:induction false} NoCrashHere(hash: string -> Digest, s: E.State, e: E.Event)
    requires E.Enabled(s, e) && !e.Crash?
    ensures E.SomeCrash(E.NextState(hash, s, e)) ==> E.SomeCrash(s)
  {
    var s' := E.NextState(hash, s, e);
    assert forall i :: 0 <= i < |s'.calls| && s'.calls[i].phase.Crashed? ==>
      i < |s.calls| && s.calls[i].phase.Crashed?;
  }

  lemma {:induction false} OneMoreOpened(s: E.State, s': E.State)
    requires s.calls <= s'.calls && forall i :: |s.calls| <= i < |s'.calls| ==> s'.calls[i].phase.Opened?
    ensures E.SomeCrash(s') ==> E.SomeCrash(s)
  {
    assert forall i :: 0 <= i < |s'.calls| && s'.calls[i].phase.Crashed? ==>
      i < |s.calls| && s.calls[i].phase.Crashed?;
  }
}
