/** Any number of gateway threads at once, over the ledger machine: the ledger grows by exactly
  the requests a receipt is due for. The backend is arbitrary: each reply is chosen when it comes. */
module GatewayRuns {
  import opened Json
  import opened JsonCanonical
  import opened Lines
  import opened Receipts
  import opened Ledger
  import opened Emitter
  import opened EmitterDomain
  import opened EmitterLaws
  import E = EmitterRuns
  import opened EmitterRunLaws
  import opened EmitterReaders
  import opened Gateway
  import GatewayWire

  datatype Stage =
    | Received
    | Awaiting             // forwarded to the backend
    | Emitting(call: nat)  // inside `emit_receipt`
    | Answered(response: Response)
    | Died                 // an exception ended the thread

  /** `reply` and `call` record what the backend said and which ledger call was made. */
  datatype Thread = Thread(request: Request, reply: Option<Reply>, call: Option<nat>, stage: Stage)

  datatype System = System(threads: seq<Thread>, ledger: E.State)

  datatype Event =
    | Arrive(request: Request)
    | Admission(thread: nat)
    | Receive(thread: nat, reply: Reply)
    | Emit(step: E.Event)
    | Finish(thread: nat)

  /** A receipt with a float for a count is not part of the model. */
  ghost predicate InScope(config: Config, request: Request, reply: Reply) {
    match Emission(config, request, reply) case Some(a) => PlainCounts(a) case None => true
  }

  ghost predicate Enabled(config: Config, s: System, e: Event) {
    match e
    case Arrive(_) => true
    case Admission(i) => i < |s.threads| && s.threads[i].stage.Received?
    case Receive(i, reply) => i < |s.threads| && s.threads[i].stage.Awaiting? && InScope(config, s.threads[i].request,
      reply)
    case Emit(step) => !step.Open? && E.Enabled(s.ledger, step)
    case Finish(i) =>
      && i < |s.threads| && s.threads[i].stage.Emitting? && s.threads[i].stage.call < |s.ledger.calls|
      && E.Finished(s.ledger.calls[s.threads[i].stage.call].phase)
  }

  /** Where a thread is once its request has been admitted. */
  function Admitted(config: Config, request: Request): Stage {
    match Admit(config, request)
    case Raises => Died
    case Done((_, prepared)) =>
      match prepared
      case Unhandled => Answered(PassedThrough)
      case BadRequest => Answered(Response(400, "application/json", INVALID_JSON))
      case Send(_, _, _) => Awaiting
  }

  function Concluded(config: Config, request: Request, reply: Reply): Stage {
    match Admit(config, request)
    case Done((_, Send(_, _, route))) => (match Answer(route, reply) case Done(r) => Answered(r) case Raises => Died)
    case _ => Died
  }

  /** Where a thread is once the backend has replied, and the arguments of the emit it starts. */
  function Replied(config: Config, request: Request, reply: Reply, call: nat): (Stage, Option<Args>) {
    match Admit(config, request)
    case Done((digest, Send(path, body, route))) =>
      (match Decide(config, digest, Send(path, body, route), reply)
       case Raises => (Died, None)
       case Done(None) => (Concluded(config, request, reply), None)
       case Done(Some(a)) => (Emitting(call), Some(a)))
    case _ => (Died, None)
  }

  function NextSystem(config: Config, hash: string -> Digest, s: System, e: Event): System
    requires Enabled(config, s, e)
  {
    match e
    case Arrive(request) => s.(threads := s.threads + [Thread(request, None, None, Received)])
    case Admission(i) => s.(threads := s.threads[i := s.threads[i].(stage := Admitted(config, s.threads[i].request))])
    case Receive(i, reply) =>
      var (stage, args) := Replied(config, s.threads[i].request, reply, |s.ledger.calls|);
      var thread := Thread(s.threads[i].request, Some(reply), if args.Some? then Some(|s.ledger.calls|) else None,
        stage);
      System(s.threads[i := thread],
             if args.Some? then s.ledger.(calls := s.ledger.calls + [E.Call(args.value, E.Opened)]) else s.ledger)
    case Emit(step) => s.(ledger := E.NextState(hash, s.ledger, step))
    case Finish(i) =>
      var thread := s.threads[i];
      s.(threads := s.threads[i := thread.(stage :=
        if thread.reply.Some? && s.ledger.calls[thread.stage.call].phase.Returned?
        then Concluded(config, thread.request, thread.reply.value) else Died)])
  }

  ghost predicate IsRun(config: Config, hash: string -> Digest, states: seq<System>, events: seq<Event>) {
    |states| == |events| + 1 &&
    forall k :: 0 <= k < |events| ==> Enabled(config, states[k], events[k]) && states[k + 1] == NextSystem(config,
      hash, states[k], events[k])
  }

  ghost predicate Initial(base: string, s: System) {
    s == System([], E.State(base, None, [], "", []))
  }

  predicate Settled(thread: Thread) { thread.stage.Answered? || thread.stage.Died? }

  /** A receipt is due for this thread's request and reply. */
  predicate Due(config: Config, thread: Thread) {
    thread.reply.Some? && Emission(config, thread.request, thread.reply.value).Some?
  }

  function CountDue(config: Config, threads: seq<Thread>): nat {
    if threads == [] then 0 else (if Due(config, threads[0]) then 1 else 0) + CountDue(config, threads[1..])
  }

  // ---------- the invariant ----------

  ghost predicate ThreadInv(config: Config, ledger: E.State, thread: Thread) {
    && (Due(config, thread) <==> thread.call.Some?)
    && (thread.call.Some? ==>
          && thread.call.value < |ledger.calls|
          && Emission(config, thread.request, thread.reply.value) == Some(ledger.calls[thread.call.value].args)
          && (Settled(thread) ==> E.Finished(ledger.calls[thread.call.value].phase)))
    && (thread.stage.Received? || thread.stage.Awaiting? ==> thread.reply.None?)
    && (thread.stage.Emitting? ==> thread.call == Some(thread.stage.call))
    && (thread.stage.Awaiting? || thread.reply.Some? ==> Admitted(config, thread.request).Awaiting?)
    && (thread.reply.Some? && thread.stage.Answered? ==>
          Concluded(config, thread.request, thread.reply.value) == thread.stage)
    && (thread.reply.None? && thread.stage.Answered? ==> Admitted(config, thread.request) == thread.stage)
  }

  ghost predicate Threads(config: Config, s: System) {
    && (forall i :: 0 <= i < |s.threads| ==> ThreadInv(config, s.ledger, s.threads[i]))
    && (forall i, j :: 0 <= i < j < |s.threads| && s.threads[i].call.Some? ==> s.threads[i].call != s.threads[j].call)
  }

  /** Every ledger call belongs to a thread. */
  ghost predicate Owned(s: System) {
    forall c :: 0 <= c < |s.ledger.calls| ==> HasOwner(s.threads, c)
  }

  ghost predicate HasOwner(threads: seq<Thread>, c: nat) {
    exists i :: 0 <= i < |threads| && threads[i].call == Some(c)
  }

  ghost predicate Inv(config: Config, hash: string -> Digest, base: string, s: System) {
    && Threads(config, s) && Owned(s) && |s.ledger.calls| == CountDue(config, s.threads)
    && Reachable(hash, base, s.ledger)
  }

  // ---------- every step keeps it ----------

  lemma {:induction false} CountReplaced(config: Config, threads: seq<Thread>, i: nat, thread: Thread)
    requires i < |threads|
    ensures CountDue(config, threads[i := thread]) ==
            CountDue(config, threads) - (if Due(config, threads[i]) then 1 else 0) + (if Due(config,
              thread) then 1 else 0)
  {
    hide Due;
    var threads' := threads[i := thread];
    if i == 0 {
      assert threads'[1..] == threads[1..];
    } else {
      CountReplaced(config, threads[1..], i - 1, thread);
      assert threads'[1..] == threads[1..][i - 1 := thread];
    }
  }

  lemma {:induction false} CountAppended(config: Config, threads: seq<Thread>, thread: Thread)
    ensures CountDue(config, threads + [thread]) == CountDue(config, threads) + if Due(config, thread) then 1 else 0
  {
    hide Due;
    if threads == [] {
      assert [thread][1..] == [];
    } else {
      CountAppended(config, threads[1..], thread);
      assert (threads + [thread])[1..] == threads[1..] + [thread];
    }
  }

  /** Every gateway run is, on the ledger, a run of the emitters. */
  lemma {:induction false} ReachableStep(hash: string -> Digest, base: string, s: E.State, e: E.Event)
    requires Reachable(hash, base, s) && E.Enabled(s, e)
    ensures Reachable(hash, base, E.NextState(hash, s, e))
  {
    hide E.NextState, E.Enabled, E.Initial;
    var states, events :| RunTo(hash, base, s, states, events);
    var states', events' := states + [E.NextState(hash, s, e)], events + [e];
    forall k | 0 <= k < |events'|
      ensures E.Enabled(states'[k], events'[k]) && states'[k + 1] == E.NextState(hash, states'[k], events'[k])
    {
      assert k < |events| ==> states'[k] == states[k] && events'[k] == events[k];
    }
    assert RunTo(hash, base, E.NextState(hash, s, e), states', events');
  }

  lemma {:induction false} StaysOwned(threads: seq<Thread>, threads': seq<Thread>, c: nat)
    requires HasOwner(threads, c) && |threads| <= |threads'|
    requires forall i :: 0 <= i < |threads| && threads[i].call.Some? ==> threads'[i].call == threads[i].call
    ensures HasOwner(threads', c)
  {
    var i :| 0 <= i < |threads| && threads[i].call == Some(c);
    assert threads'[i].call == Some(c);
  }

  lemma {:induction false} AllStayOwned(s: System, threads': seq<Thread>)
    requires Owned(s) && |s.threads| <= |threads'|
    requires forall i :: 0 <= i < |s.threads| && s.threads[i].call.Some? ==> threads'[i].call == s.threads[i].call
    ensures forall c :: 0 <= c < |s.ledger.calls| ==> HasOwner(threads', c)
  {
    forall c | 0 <= c < |s.ledger.calls| ensures HasOwner(threads', c) { StaysOwned(s.threads, threads', c); }
  }

  lemma {:induction false} ArriveKeeps(config: Config, hash: string -> Digest, base: string, s: System, e: Event)
    requires Inv(config, hash, base, s) && e.Arrive?
    ensures Inv(config, hash, base, NextSystem(config, hash, s, e))
  {
    hide Emission, Reachable, Admitted, Concluded, HasOwner;
    var thread := Thread(e.request, None, None, Received);
    CountAppended(config, s.threads, thread);
    AllStayOwned(s, s.threads + [thread]);
    assert ThreadInv(config, s.ledger, thread);
    hide ThreadInv, CountDue, Due;
  }

  lemma {:induction false} AdmissionKeeps(config: Config, hash: string -> Digest, base: string, s: System, e: Event)
    requires Inv(config, hash, base, s) && e.Admission? && Enabled(config, s, e)
    ensures Inv(config, hash, base, NextSystem(config, hash, s, e))
  {
    hide Emission, Reachable, Admit, Concluded, HasOwner;
    var thread := s.threads[e.thread].(stage := Admitted(config, s.threads[e.thread].request));
    assert ThreadInv(config, s.ledger, s.threads[e.thread]);
    CountReplaced(config, s.threads, e.thread, thread);
    AllStayOwned(s, s.threads[e.thread := thread]);
    assert ThreadInv(config, s.ledger, thread);
    hide ThreadInv, CountDue, Due;
  }

  lemma {:induction false} FinishKeeps(config: Config, hash: string -> Digest, base: string, s: System, e: Event)
    requires Inv(config, hash, base, s) && e.Finish? && Enabled(config, s, e)
    ensures Inv(config, hash, base, NextSystem(config, hash, s, e))
  {
    hide Emission, Reachable, Admit, Admitted, HasOwner;
    var thread := NextSystem(config, hash, s, e).threads[e.thread];
    assert ThreadInv(config, s.ledger, s.threads[e.thread]);
    CountReplaced(config, s.threads, e.thread, thread);
    AllStayOwned(s, s.threads[e.thread := thread]);
    assert ThreadInv(config, s.ledger, thread);
    hide ThreadInv, CountDue, Due;
  }

  /** What a reply leads to, in terms of the receipt that is due. */
  lemma {:induction false} RepliedIs(config: Config, request: Request, reply: Reply, call: nat)
    requires Admitted(config, request).Awaiting?
    ensures var (stage, args) := Replied(config, request, reply, call);
            && args == Emission(config, request, reply)
            && (args.Some? ==> stage == Emitting(call))
            && (args.None? ==> stage == Concluded(config, request, reply) || stage == Died)
            && !Concluded(config, request, reply).Emitting?
            && !Concluded(config, request, reply).Received?
            && !Concluded(config, request, reply).Awaiting?
  {
    hide Decide, Answer, ResolveDigest, Prepare;
  }

  lemma {:induction false} ReceiveKeeps(config: Config, hash: string -> Digest, base: string, s: System, e: Event)
    requires Inv(config, hash, base, s) && e.Receive? && Enabled(config, s, e)
    ensures Inv(config, hash, base, NextSystem(config, hash, s, e))
  {
    hide Emission, Reachable, Admit, Admitted, HasOwner, Replied, Concluded;
    var before, calls := s.threads[e.thread], |s.ledger.calls|;
    assert ThreadInv(config, s.ledger, before);
    RepliedIs(config, before.request, e.reply, calls);
    var s' := NextSystem(config, hash, s, e);
    var thread := s'.threads[e.thread];
    CountReplaced(config, s.threads, e.thread, thread);
    AllStayOwned(s, s'.threads);
    if Emission(config, before.request, e.reply).Some? {
      var args := Emission(config, before.request, e.reply).value;
      assert E.NextState(hash, s.ledger, E.Open(args)) == s'.ledger;
      ReachableStep(hash, base, s.ledger, E.Open(args));
      IsOwner(s'.threads, e.thread, calls);
    }
    ReceivedThreads(config, hash, base, s, e);
    hide ThreadInv, CountDue, Threads;
  }

  lemma {:induction false} IsOwner(threads: seq<Thread>, i: nat, c: nat)
    requires i < |threads| && threads[i].call == Some(c)
    ensures HasOwner(threads, c)
  {
  }

  lemma {:induction false} ReceivedThreads(config: Config, hash: string -> Digest, base: string, s: System, e: Event)
    requires Inv(config, hash, base, s) && e.Receive? && Enabled(config, s, e)
    ensures Threads(config, NextSystem(config, hash, s, e))
  {
    hide Emission, Reachable, Admit, Admitted, Owned, Replied, Concluded, CountDue;
    var before, calls := s.threads[e.thread], |s.ledger.calls|;
    assert ThreadInv(config, s.ledger, before);
    RepliedIs(config, before.request, e.reply, calls);
    var s' := NextSystem(config, hash, s, e);
    forall i | 0 <= i < |s'.threads| ensures ThreadInv(config, s'.ledger, s'.threads[i]) {
      assert ThreadInv(config, s.ledger, s.threads[i]);
    }
    forall i, j | 0 <= i < j < |s'.threads|
      && s'.threads[i].call.Some? ensures s'.threads[i].call != s'.threads[j].call {
      assert ThreadInv(config, s.ledger, s.threads[i]) && ThreadInv(config, s.ledger, s.threads[j]);
    }
  }

  /** A step of a ledger call keeps arguments, and calls that are over stay over. */
  lemma {:induction false} LedgerStep(hash: string -> Digest, s: E.State, e: E.Event)
    requires E.Enabled(s, e) && !e.Open?
    ensures var s' := E.NextState(hash, s, e);
            && |s'.calls| == |s.calls|
            && forall c :: 0 <= c < |s.calls| ==>
                 s'.calls[c].args == s.calls[c].args && (E.Finished(s.calls[c].phase) ==> s'.calls[c] == s.calls[c])
  {
    hide NextReceipt, Canonical;
  }

  lemma {:induction false} EmitKeeps(config: Config, hash: string -> Digest, base: string, s: System, e: Event)
    requires Inv(config, hash, base, s) && e.Emit? && Enabled(config, s, e)
    ensures Inv(config, hash, base, NextSystem(config, hash, s, e))
  {
    hide Emission, Reachable, Admitted, HasOwner, Concluded, CountDue, E.NextState, E.Enabled;
    LedgerStep(hash, s.ledger, e.step);
    ReachableStep(hash, base, s.ledger, e.step);
    var s' := NextSystem(config, hash, s, e);
    forall i | 0 <= i < |s'.threads| ensures ThreadInv(config, s'.ledger, s'.threads[i]) {
      assert ThreadInv(config, s.ledger, s.threads[i]);
    }
  }

  lemma {:induction false} KeepsInv(config: Config, hash: string -> Digest, base: string, s: System, e: Event)
    requires Inv(config, hash, base, s) && Enabled(config, s, e)
    ensures Inv(config, hash, base, NextSystem(config, hash, s, e))
  {
    hide *;
    match e
    case Arrive(_) => ArriveKeeps(config, hash, base, s, e);
    case Admission(_) => AdmissionKeeps(config, hash, base, s, e);
    case Receive(_, _) => ReceiveKeeps(config, hash, base, s, e);
    case Emit(_) => EmitKeeps(config, hash, base, s, e);
    case Finish(_) => FinishKeeps(config, hash, base, s, e);
  }

  lemma {:induction false} InitialInv(config: Config, hash: string -> Digest, base: string, s: System)
    requires Initial(base, s)
    ensures Inv(config, hash, base, s)
  {
    assert RunTo(hash, base, s.ledger, [s.ledger], []);
  }

  lemma {:induction false} RunInv(config: Config, hash: string -> Digest, base: string, states: seq<System>,
                                  events: seq<Event>, k: nat)
    requires IsRun(config, hash, states, events) && Initial(base, states[0]) && k < |states|
    ensures Inv(config, hash, base, states[k])
  {
    hide Initial, Inv, NextSystem, Enabled;
    if k == 0 {
      InitialInv(config, hash, base, states[0]);
    } else {
      RunInv(config, hash, base, states, events, k - 1);
      KeepsInv(config, hash, base, states[k - 1], events[k - 1]);
    }
  }

  // ---------- conservation ----------

  /** Every thread is settled and no ledger call crashed. */
  ghost predicate Quiet(s: System) {
    (forall i :: 0 <= i < |s.threads| ==> Settled(s.threads[i])) && !E.SomeCrash(s.ledger)
  }

  lemma {:induction false} QuietLedger(config: Config, hash: string -> Digest, base: string, n0: nat, s: System)
    requires Chained(hash, base, n0) && Inv(config, hash, base, s) && Quiet(s)
    ensures s.ledger.holder == None && s.ledger.stub == ""
    ensures forall c :: 0 <= c < |s.ledger.calls| ==> s.ledger.calls[c].phase.Returned?
    ensures |Callers(s.ledger.log)| == |s.ledger.calls|
  {
    hide Chained, Reachable, E.SomeCrash, Emission, CountDue, Writers, Callers;
    forall c | 0 <= c < |s.ledger.calls| ensures s.ledger.calls[c].phase.Returned? {
      assert HasOwner(s.threads, c);
      var i :| 0 <= i < |s.threads| && s.threads[i].call == Some(c);
      assert ThreadInv(config, s.ledger, s.threads[i]);
      NoneRaises(hash, base, n0, s.ledger, c);
    }
    ReachableInv(hash, base, n0, s.ledger);
    NoHolder(hash, base, s.ledger);
    NoCrashNoStub(hash, base, n0, s.ledger);
    LockFreeLedger(hash, base, n0, s.ledger);
    FreeWriters(s.ledger);
    AllWriters(s.ledger, |s.ledger.calls|);
  }

  lemma {:induction false} NoHolder(hash: string -> Digest, base: string, s: E.State)
    requires E.Inv(hash, base, s) && forall c :: 0 <= c < |s.calls| ==> s.calls[c].phase.Returned?
    ensures s.holder == None
  {
    hide E.Logged, E.Linear, E.FileText;
    InvParts(hash, base, s);
  }

  function UpTo(n: nat): set<nat> {
    if n == 0 then {} else UpTo(n - 1) + {n - 1}
  }

  lemma {:induction false} UpToIs(n: nat)
    ensures |UpTo(n)| == n && forall i: nat :: i in UpTo(n) <==> i < n
  {
    if n > 0 { UpToIs(n - 1); }
  }

  lemma {:induction false} AllWriters(s: E.State, n: nat)
    requires n == |s.calls| && forall c :: 0 <= c < |s.calls| ==> s.calls[c].phase.Returned?
    ensures |Writers(s)| == n
  {
    UpToIs(n);
    assert Writers(s) == UpTo(n);
  }

  /** Conservation, whatever the backend reports: once all threads are settled, the chain has grown by
    exactly the requests a receipt was due for, and each of them has its own receipt in it, once. */
  lemma {:induction false} GatewayConserves(config: Config, hash: string -> Digest, base: string, n0: nat,
                                            states: seq<System>, events: seq<Event>)
    requires Chained(hash, base, n0) && IsRun(config, hash, states, events) && Initial(base, states[0])
    requires Quiet(states[|events|])
    ensures var s := states[|events|];
            && Chained(hash, s.ledger.file, n0 + CountDue(config, s.threads))
            && (forall i :: 0 <= i < |s.threads| && Due(config, s.threads[i]) ==> HasReceipt(config, hash, s, i))
            && (forall i, j :: 0 <= i < j < |s.threads| && Due(config, s.threads[i]) && Due(config, s.threads[j]) ==>
                  s.threads[i].call != s.threads[j].call)
  {
    hide Chained, Quiet, Inv, Due, CountDue, HasReceipt, Initial, Enabled, NextSystem;
    RunInv(config, hash, base, states, events, |events|);
    QuietConserves(config, hash, base, n0, states[|events|]);
  }

  lemma {:induction false} QuietConserves(config: Config, hash: string -> Digest, base: string, n0: nat, s: System)
    requires Chained(hash, base, n0) && Inv(config, hash, base, s) && Quiet(s)
    ensures Chained(hash, s.ledger.file, n0 + CountDue(config, s.threads))
    ensures forall i :: 0 <= i < |s.threads| && Due(config, s.threads[i]) ==> HasReceipt(config, hash, s, i)
    ensures forall i, j :: 0 <= i < j < |s.threads| && Due(config, s.threads[i]) && Due(config, s.threads[j]) ==>
              s.threads[i].call != s.threads[j].call
  {
    hide *;
    QuietLedger(config, hash, base, n0, s);
    QuietParts(config, hash, base, s);
    LockFreeLedger(hash, base, n0, s.ledger);
    forall i | 0 <= i < |s.threads| && Due(config, s.threads[i]) ensures HasReceipt(config, hash, s, i) {
      OwnReceipt(config, hash, base, n0, s, i);
    }
  }

  /** The receipt due for this thread is one the schema allows. */
  predicate DueAllowed(config: Config, thread: Thread) {
    Due(config, thread) ==> InDomain(Emission(config, thread.request, thread.reply.value).value)
  }

  /** The schema's verdict on the settled ledger: accepted exactly when it allows the receipt of every
    request one was due for, and otherwise rejected at the first line it does not allow. */
  lemma {:induction false} GatewayVerdict(config: Config, hash: string -> Digest, base: string, n0: nat,
                                          states: seq<System>, events: seq<Event>, k: nat)
    requires CleanFile(Checked(hash), base, n0) && IsRun(config, hash, states, events) && Initial(base, states[0])
    requires Quiet(states[|events|]) && FirstOutside(states[|events|].ledger, k)
    ensures var s := states[|events|];
            && Verify(Checked(hash), VerifierLines(s.ledger.file)) ==
               (if k == |s.ledger.log| then Accepted(n0 + CountDue(config, s.threads))
                else Rejected(n0 + k, SchemaInvalid))
            && (k == |s.ledger.log| <==>
                  forall i :: 0 <= i < |s.threads| ==> DueAllowed(config, s.threads[i]))
  {
    hide Chained, CleanFile, Quiet, Inv, Due, CountDue, Initial, Enabled, NextSystem, E.SomeCrash, FirstOutside,
         DueAllowed, Verify, VerifierLines, Callers;
    var s := states[|events|];
    CheckedIsChained(hash, base, n0);
    RunInv(config, hash, base, states, events, |events|);
    QuietLedger(config, hash, base, n0, s);
    QuietParts(config, hash, base, s);
    WholeVerdict(hash, base, n0, s.ledger, k);
    FirstMeansAll(s.ledger, k);
    AllowedEitherWay(config, hash, base, n0, s);
  }

  /** On the ledger a gateway run only ever adds. */
  lemma {:induction false} SystemExtends(config: Config, hash: string -> Digest, states: seq<System>,
                                         events: seq<Event>, j: nat, k: nat)
    requires IsRun(config, hash, states, events) && j <= k < |states|
    ensures Extends(states[j].ledger, states[k].ledger)
    decreases k - j
  {
    hide NextSystem, Enabled;
    if j < k {
      SystemStepExtends(config, hash, states[j], events[j]);
      SystemExtends(config, hash, states, events, j + 1, k);
    }
  }

  lemma {:induction false} SystemStepExtends(config: Config, hash: string -> Digest, s: System, e: Event)
    requires Enabled(config, s, e)
    ensures Extends(s.ledger, NextSystem(config, hash, s, e).ledger)
  {
    hide E.NextState, E.Enabled, Replied, Admitted, Concluded, Emission;
    if e.Emit? { StepExtends(hash, s.ledger, e.step); }
  }

  /** A line the schema does not allow is fatal at once and for good: from the moment it is written,
    whatever the threads do, `verify_ledger` rejects the ledger there. */
  lemma {:induction false} GatewayRejectedForever(config: Config, hash: string -> Digest, base: string, n0: nat,
                                                  states: seq<System>, events: seq<Event>, j: nat, k: nat, b: nat)
    requires CleanFile(Checked(hash), base, n0) && IsRun(config, hash, states, events) && Initial(base, states[0])
    requires j <= k < |states| && FirstOutside(states[j].ledger, b) && b < |states[j].ledger.log|
    ensures Verify(Checked(hash), VerifierLines(states[k].ledger.file)) == Rejected(n0 + b, SchemaInvalid)
  {
    hide *;
    CheckedIsChained(hash, base, n0);
    SystemExtends(config, hash, states, events, j, k);
    LedgerInv(config, hash, base, n0, states, events, j);
    LedgerInv(config, hash, base, n0, states, events, k);
    StillRejected(hash, base, n0, states[j].ledger, states[k].ledger, b);
  }

  lemma {:induction false} LedgerInv(config: Config, hash: string -> Digest, base: string, n0: nat,
                                     states: seq<System>, events: seq<Event>, k: nat)
    requires Chained(hash, base, n0) && IsRun(config, hash, states, events) && Initial(base, states[0])
    requires k < |states|
    ensures E.Inv(hash, base, states[k].ledger)
  {
    hide Chained, Threads, Owned, CountDue, Initial, IsRun, Reachable, E.Inv;
    RunInv(config, hash, base, states, events, k);
    ReachableInv(hash, base, n0, states[k].ledger);
  }

  lemma {:induction false} FirstMeansAll(s: E.State, k: nat)
    requires FirstOutside(s, k)
    ensures k == |s.log| <==> forall j :: 0 <= j < |s.log| ==> LineAllowed(s, j)
  {
    hide LineAllowed;
  }

  /** The lines are the receipts due. */
  lemma {:induction false} AllowedEitherWay(config: Config, hash: string -> Digest, base: string, n0: nat, s: System)
    requires Chained(hash, base, n0) && Inv(config, hash, base, s) && Quiet(s)
    ensures (forall j :: 0 <= j < |s.ledger.log| ==> LineAllowed(s.ledger, j)) <==>
            (forall i :: 0 <= i < |s.threads| ==> DueAllowed(config, s.threads[i]))
  {
    hide Chained, Quiet, CountDue, E.SomeCrash, Reachable, Emission, InDomain, E.Linear, E.FileText, E.Locking;
    QuietLedger(config, hash, base, n0, s);
    QuietParts(config, hash, base, s);
    ReachableInv(hash, base, n0, s.ledger);
    InvParts(hash, base, s.ledger);
    if forall j :: 0 <= j < |s.ledger.log| ==> LineAllowed(s.ledger, j) {
      forall i | 0 <= i < |s.threads| ensures DueAllowed(config, s.threads[i]) {
        assert ThreadInv(config, s.ledger, s.threads[i]);
        if Due(config, s.threads[i]) {
          var c := s.threads[i].call.value;
          assert E.Recorded(s.ledger.log, c);
          var j :| 0 <= j < |s.ledger.log| && s.ledger.log[j].call == c;
          assert LineAllowed(s.ledger, j);
        }
      }
    }
    if forall i :: 0 <= i < |s.threads| ==> DueAllowed(config, s.threads[i]) {
      forall j | 0 <= j < |s.ledger.log| ensures LineAllowed(s.ledger, j) {
        var c := s.ledger.log[j].call;
        assert E.Appended(s.ledger.calls[c].phase, s.ledger.log[j].receipt);
        assert HasOwner(s.threads, c);
        var i :| 0 <= i < |s.threads| && s.threads[i].call == Some(c);
        assert ThreadInv(config, s.ledger, s.threads[i]);
        assert DueAllowed(config, s.threads[i]);
      }
    }
  }

  lemma {:induction false} QuietParts(config: Config, hash: string -> Digest, base: string, s: System)
    requires Inv(config, hash, base, s) && Quiet(s)
    ensures !E.SomeCrash(s.ledger) && Reachable(hash, base, s.ledger) && |s.ledger.calls| == CountDue(config, s.threads)
    ensures forall i, j :: 0 <= i < j < |s.threads| && Due(config, s.threads[i]) && Due(config, s.threads[j]) ==>
              s.threads[i].call != s.threads[j].call
  {
    hide Reachable, E.SomeCrash, CountDue, Owned;
    forall i, j | 0 <= i < j < |s.threads| && Due(config, s.threads[i]) && Due(config, s.threads[j])
      ensures s.threads[i].call != s.threads[j].call
    {
      assert ThreadInv(config, s.ledger, s.threads[i]);
    }
  }

  /** The line of the thread's own call is in the ledger once, and it carries the arguments due for
    the thread's own request and reply. */
  ghost predicate HasReceipt(config: Config, hash: string -> Digest, s: System, i: nat)
    requires i < |s.threads|
  {
    var thread := s.threads[i];
    && thread.call.Some? && thread.call.value < |s.ledger.calls| && thread.reply.Some?
    && s.ledger.calls[thread.call.value].phase.Returned?
    && var receipt := s.ledger.calls[thread.call.value].phase.receipt;
    && receipt.Obj?
    && OccursOnce(VerifierLines(s.ledger.file), Canonical(receipt))
    && Emission(config, thread.request, thread.reply.value).Some?
    && Carries(hash, receipt.fields, Emission(config, thread.request, thread.reply.value).value)
  }

  lemma {:induction false} NextReceiptCarries(hash: string -> Digest, file: string, a: Args, now: string)
    requires NextReceipt(hash, file, a, now).Success?
    ensures var r := NextReceipt(hash, file, a, now).value; r.Obj? && Carries(hash, r.fields, a)
  {
    hide LastEntry, NextSeq, Receipt, Carries;
    var prev := LastEntry(file).value;
    var n := NextSeq(prev).value;
    ReceiptCarries(hash, a, now, n, prev);
    ReceiptIsObj(hash, a, now, n, prev);
  }

  lemma {:induction false} ReturnedCarries(hash: string -> Digest, base: string, n0: nat, s: E.State, c: nat)
    requires Chained(hash, base, n0) && Reachable(hash, base, s) && c < |s.calls| && s.calls[c].phase.Returned?
    ensures var r := s.calls[c].phase.receipt; r.Obj? && Carries(hash, r.fields, s.calls[c].args)
  {
    hide Chained, Reachable, NextReceipt, Canonical, E.Encode, E.Inv, E.FileText, E.Locking, Carries;
    ReachableInv(hash, base, n0, s);
    InvParts(hash, base, s);
    assert E.Recorded(s.log, c);
    var k :| 0 <= k < |s.log| && s.log[k].call == c;
    NextReceiptCarries(hash, base + E.Encode(s.log[..k]), s.calls[c].args, s.log[k].now);
  }

  lemma {:induction false} OwnReceipt(config: Config, hash: string -> Digest, base: string, n0: nat, s: System, i: nat)
    requires Chained(hash, base, n0) && Inv(config, hash, base, s) && Quiet(s)
    requires i < |s.threads| && Due(config, s.threads[i])
    ensures HasReceipt(config, hash, s, i)
  {
    hide Chained, Reachable, Emission, E.SomeCrash, CountDue, Writers, VerifierLines, OccursOnce, Carries, Owned,
         Find;
    QuietLedger(config, hash, base, n0, s);
    LockFreeLedger(hash, base, n0, s.ledger);
    assert ThreadInv(config, s.ledger, s.threads[i]);
    ReturnedCarries(hash, base, n0, s.ledger, s.threads[i].call.value);
  }

  // ---------- the client's view ----------

  /** Receipts change nothing for the client: an OpenAI request is answered with the backend's own
    status, content type and body. */
  lemma {:induction false} DirectReplyUntouched(config: Config, hash: string -> Digest, base: string,
                                                states: seq<System>, events: seq<Event>, i: nat)
    requires IsRun(config, hash, states, events) && Initial(base, states[0])
    requires i < |states[|events|].threads|
    requires var t := states[|events|].threads[i];
             && (t.request.path == CHAT || t.request.path == EMBED)
             && t.reply.Some? && t.reply.value.Reply? && t.stage.Answered?
    ensures var t := states[|events|].threads[i];
            t.stage.response == Response(t.reply.value.status, t.reply.value.contentType, t.reply.value.body)
  {
    hide Initial, Enabled, NextSystem, Emission, Reachable, CountDue, Owned, ResolveDigest, ReqModel;
    var s := states[|events|];
    RunInv(config, hash, base, states, events, |events|);
    assert ThreadInv(config, s.ledger, s.threads[i]);
    DirectIsConcluded(config, s.threads[i].request, s.threads[i].reply.value);
  }

  /** A request that never reaches the backend is passed on as it is when its path is none of six, and
    otherwise has a body that is not JSON and is answered 400. */
  lemma {:induction false} AnsweredUnasked(config: Config, hash: string -> Digest, base: string,
                                           states: seq<System>, events: seq<Event>, i: nat)
    requires IsRun(config, hash, states, events) && Initial(base, states[0])
    requires i < |states[|events|].threads|
    requires states[|events|].threads[i].reply.None? && states[|events|].threads[i].stage.Answered?
    ensures var t := states[|events|].threads[i];
            if t.request.path in ["/api/chat", "/api/generate", "/api/embeddings", "/api/embed"]
            then Loads(t.request.body) == None
                 && t.stage.response == Response(400, "application/json", "{\"error\":\"invalid JSON\"}")
            else t.stage.response == PassedThrough
                 && t.request.path != "/v1/chat/completions" && t.request.path != "/v1/embeddings"
  {
    hide Initial, Enabled, NextSystem, Emission, Reachable, CountDue, Owned, ResolveDigest, ReqModel;
    RunInv(config, hash, base, states, events, |events|);
    assert ThreadInv(config, states[|events|].ledger, states[|events|].threads[i]);
    Unasked(config, states[|events|].threads[i].request);
  }

  lemma {:induction false} Unasked(config: Config, request: Request)
    requires Admitted(config, request).Answered?
    ensures Admitted(config, request).response ==
            if request.path in ["/api/chat", "/api/generate", "/api/embeddings", "/api/embed"]
            then Response(400, "application/json", "{\"error\":\"invalid JSON\"}") else PassedThrough
    ensures request.path in ["/api/chat", "/api/generate", "/api/embeddings", "/api/embed"] ==>
              Loads(request.body) == None
    ensures request.path != "/v1/chat/completions" && request.path != "/v1/embeddings"
  {
    hide ResolveDigest, ReqModel, Loads, Prepare;
    GatewayWire.Routes(request);
    assert Prepare(request) == Done(Unhandled) || Prepare(request) == Done(BadRequest);
    assert request.path in ["/api/chat", "/api/generate", "/api/embeddings", "/api/embed"] <==> request.path in OLLAMA;
    var p := GatewayWire.PATHS;
    assert p[0] == "/v1/chat/completions" && p[1] == "/v1/embeddings" && p[2] == "/api/chat" && p[3] == "/api/generate";
    assert p[4] == "/api/embeddings" && p[5] == "/api/embed";
  }

  lemma {:induction false} DirectIsConcluded(config: Config, request: Request, reply: Reply)
    requires (request.path == CHAT || request.path == EMBED) && reply.Reply?
    ensures Concluded(config, request, reply).Answered? ==>
              Concluded(config, request, reply) == Answered(Response(reply.status, reply.contentType, reply.body))
  {
    hide ResolveDigest, ReqModel, CHAT, EMBED, OLLAMA;
  }
}
