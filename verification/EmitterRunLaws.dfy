/** What holds over every interleaving of concurrent `emit_receipt` calls. */
module EmitterRunLaws {
  import opened Json
  import opened JsonCanonical
  import opened Lines
  import opened Receipts
  import opened Ledger
  import opened Emitter
  import opened EmitterDomain
  import opened EmitterLaws
  import opened EmitterRuns

  ghost predicate RunTo(hash: string -> Digest, base: string, s: State, states: seq<State>, events: seq<Event>) {
    IsRun(hash, states, events) && Initial(base, states[0]) && states[|events|] == s
  }

  /** Some interleaving of calls on a ledger with content `base` leads to `s`. */
  ghost predicate Reachable(hash: string -> Digest, base: string, s: State) {
    exists states, events :: RunTo(hash, base, s, states, events)
  }

  lemma {:induction false} ReachableInv(hash: string -> Digest, base: string, n0: nat, s: State)
    requires Chained(hash, base, n0) && Reachable(hash, base, s)
    ensures Inv(hash, base, s)
  {
    hide IsRun, Initial, Inv, Chained;
    var states, events :| RunTo(hash, base, s, states, events);
    RunLength(hash, states, events);
    RunInv(hash, base, n0, states, events, |events|);
  }

  lemma {:induction false} RunLength(hash: string -> Digest, states: seq<State>, events: seq<Event>)
    requires IsRun(hash, states, events)
    ensures |states| == |events| + 1
  {
  }

  // ---------- counting the calls that wrote a line ----------

  function Callers(log: seq<Commit>): set<nat> {
    if log == [] then {} else Callers(log[..|log| - 1]) + {log[|log| - 1].call}
  }

  ghost predicate OnceEach(log: seq<Commit>) {
    forall j, k :: 0 <= j < k < |log| ==> log[j].call != log[k].call
  }

  lemma {:induction false} CallersAre(log: seq<Commit>)
    ensures forall i :: i in Callers(log) <==> Recorded(log, i)
    ensures OnceEach(log) ==> |Callers(log)| == |log|
  {
    if log != [] {
      var init, last := log[..|log| - 1], log[|log| - 1];
      assert init + [last] == log;
      CallersAre(init);
      RecordMore(init, last);
      RecordLast(init, last);
      assert OnceEach(log) ==> OnceEach(init) && !Recorded(init, last.call);
      hide Recorded, OnceEach;
    }
  }

  lemma {:induction false} RecordLast(log: seq<Commit>, c: Commit)
    ensures forall i :: Recorded(log + [c], i) ==> Recorded(log, i) || i == c.call
  {
    forall i | Recorded(log + [c], i) && i != c.call ensures Recorded(log, i) {
      var k :| 0 <= k < |log| + 1 && (log + [c])[k].call == i;
      assert log[k].call == i;
    }
  }

  /** The calls whose whole line is in the file. */
  function Writers(s: State): set<nat> {
    set i | 0 <= i < |s.calls| && WroteAll(s.calls[i].phase)
  }

  lemma {:induction false} LogCounts(s: State)
    requires Logged(s)
    ensures |s.log| == |Callers(s.log)| && Writers(s) <= Callers(s.log)
    ensures !SomeCrash(s) ==> Callers(s.log) == Writers(s)
    ensures forall i :: i in Callers(s.log) - Writers(s) ==> i < |s.calls| && s.calls[i].phase.Crashed?
  {
    CallersAre(s.log);
    assert OnceEach(s.log);
    forall i | i in Callers(s.log) ensures i < |s.calls| && (i in Writers(s) || s.calls[i].phase.Crashed?) {
      CallerPhase(s, i);
    }
  }

  lemma {:induction false} CallerPhase(s: State, i: nat)
    requires Logged(s) && Recorded(s.log, i)
    ensures i < |s.calls| && (i in Writers(s) || s.calls[i].phase.Crashed?)
  {
    var k :| 0 <= k < |s.log| && s.log[k].call == i;
    assert Appended(s.calls[i].phase, s.log[k].receipt);
  }

  // ---------- the ledger when the lock is free ----------

  /** The text is exactly one of the lines. */
  ghost predicate OccursOnce(lines: seq<string>, text: string) {
    exists k :: 0 <= k < |lines| && OnlyAt(lines, text, k)
  }

  ghost predicate OnlyAt(lines: seq<string>, text: string, k: nat) {
    forall j :: 0 <= j < |lines| ==> (lines[j] == text <==> j == k)
  }

  /** No two lines of an accepted ledger are equal. */
  lemma {:induction false} LinesDiffer(t: Trust, file: string, n: nat, k: nat)
    requires Verified(t, file, n) && k < |VerifierLines(file)|
    ensures OnlyAt(VerifierLines(file), VerifierLines(file)[k], k)
  {
    hide VerifierLines, Loads, Find;
    GoodLines(t, file, n);
    var lines := VerifierLines(file);
    forall j | 0 <= j < |lines| ensures lines[j] == lines[k] <==> j == k {
      assert GoodEntry(t, lines, j) && GoodEntry(t, lines, k);
    }
  }

  /** Whenever no piece of an entry is in the file - with the lock free, unless a crash tore one - the
    chain is unbroken, it has grown by one entry per call that wrote its line, and the receipt of
    each call that returned is in it exactly once. Without a crash, and with the lock free, the calls
    that wrote are the calls that returned. */
  lemma {:induction false} LockFreeLedger(hash: string -> Digest, base: string, n0: nat, s: State)
    requires Chained(hash, base, n0) && Reachable(hash, base, s)
    requires s.stub == ""
    ensures Chained(hash, s.file, n0 + |Callers(s.log)|)
    ensures s.holder == None && !SomeCrash(s) ==>
              Callers(s.log) == set i | 0 <= i < |s.calls| && s.calls[i].phase.Returned?
    ensures forall i :: 0 <= i < |s.calls| && s.calls[i].phase.Returned? ==>
              i in Callers(s.log) && OccursOnce(VerifierLines(s.file), Canonical(s.calls[i].phase.receipt))
  {
    hide *;
    ReachableInv(hash, base, n0, s);
    LockFreeText(hash, base, n0, s);
    InvParts(hash, base, s);
    if s.holder == None { FreeWriters(s); }
    LogCounts(s);
    forall i | 0 <= i < |s.calls| && s.calls[i].phase.Returned?
      ensures i in Callers(s.log) && OccursOnce(VerifierLines(s.file), Canonical(s.calls[i].phase.receipt))
    {
      ReturnedOnce(hash, base, n0, s, i);
      assert i in Writers(s);
    }
  }

  /** Without a crash a free lock leaves no piece of an entry. */
  lemma {:induction false} NoCrashNoStub(hash: string -> Digest, base: string, n0: nat, s: State)
    requires Chained(hash, base, n0) && Reachable(hash, base, s)
    requires s.holder == None && !SomeCrash(s)
    ensures s.stub == ""
  {
    hide Chained, Reachable, Encode, TornEntry, SomeCrash, Logged, Linear;
    ReachableInv(hash, base, n0, s);
  }

  lemma {:induction false} InvParts(hash: string -> Digest, base: string, s: State)
    requires Inv(hash, base, s)
    ensures AllPlainCounts(s.calls) && Locking(s) && Logged(s) && Linear(hash, base, s) && FileText(hash, base, s)
  {
  }

  lemma {:induction false} LockFreeText(hash: string -> Digest, base: string, n0: nat, s: State)
    requires Chained(hash, base, n0) && Inv(hash, base, s) && s.stub == ""
    ensures |s.log| == |Callers(s.log)| && s.file == base + Encode(s.log)
    ensures Chained(hash, s.file, n0 + |s.log|)
    ensures VerifierLines(s.file) == VerifierLines(base) + LogLines(s.log)
  {
    hide *;
    InvParts(hash, base, s);
    FreeText(hash, base, s);
    AllWholeLines(hash, base, n0, s);
    LogCounts(s);
  }

  lemma {:induction false} FreeText(hash: string -> Digest, base: string, s: State)
    requires FileText(hash, base, s) && s.stub == ""
    ensures s.file == base + Encode(s.log)
  {
    hide Encode, InFlight, TornEntry, SomeCrash, Busy;
    assert base + Encode(s.log) + "" == base + Encode(s.log);
  }

  lemma {:induction false} FreeWriters(s: State)
    requires Locking(s) && s.holder == None
    ensures Writers(s) == set i | 0 <= i < |s.calls| && s.calls[i].phase.Returned?
  {
  }

  lemma {:induction false} ReturnedOnce(hash: string -> Digest, base: string, n0: nat, s: State, i: nat)
    requires Chained(hash, s.file, n0 + |s.log|) && Logged(s)
    requires VerifierLines(s.file) == VerifierLines(base) + LogLines(s.log)
    requires i < |s.calls| && s.calls[i].phase.Returned?
    ensures i in Writers(s) && OccursOnce(VerifierLines(s.file), Canonical(s.calls[i].phase.receipt))
  {
    hide VerifierLines, Canonical, Verified, ViewsAgree, UniversalNewlines;
    assert Recorded(s.log, i);
    var k :| 0 <= k < |s.log| && s.log[k].call == i;
    assert Appended(s.calls[i].phase, s.log[k].receipt);
    var at := |VerifierLines(base)| + k;
    assert VerifierLines(s.file)[at] == LogLines(s.log)[k];
    LinesDiffer(Lax(hash), s.file, n0 + |s.log|, at);
  }

  /** Without a crash no call raises. */
  lemma {:induction false} NoneRaises(hash: string -> Digest, base: string, n0: nat, s: State, i: nat)
    requires Chained(hash, base, n0) && Reachable(hash, base, s) && !SomeCrash(s)
    requires i < |s.calls| && Finished(s.calls[i].phase)
    ensures s.calls[i].phase.Returned?
  {
    hide Chained, Reachable, Encode, TornEntry, Logged, Linear, Locking, NextReceipt, Canonical;
    ReachableInv(hash, base, n0, s);
    assert InFlight(hash, base, s, s.calls[i]);
  }

  // ---------- one call at a time ----------

  datatype Job = Job(args: Args, now: string)

  /** The ledger after these calls, made one after the other; a call that raises changes nothing. */
  function OneByOne(hash: string -> Digest, file: string, jobs: seq<Job>): string {
    if jobs == [] then file
    else
      var before := OneByOne(hash, file, jobs[..|jobs| - 1]);
      var job := jobs[|jobs| - 1];
      match NextReceipt(hash, before, job.args, job.now)
      case Raised(_) => before
      case Success(r) => before + Canonical(r) + "\n"
  }

  method EmitAll(hash: string -> Digest, ledger: LedgerFile, jobs: seq<Job>)
    requires !ledger.locked
    modifies ledger
    ensures !ledger.locked && ledger.text == OneByOne(hash, old(ledger.text), jobs)
  {
    hide NextReceipt, Canonical;
    for k := 0 to |jobs|
      invariant !ledger.locked && ledger.text == OneByOne(hash, old(ledger.text), jobs[..k])
    {
      var r := ledger.EmitReceipt(hash, jobs[k].args, jobs[k].now);
      assert jobs[..k + 1][..k] == jobs[..k];
    }
    assert jobs[..|jobs|] == jobs;
  }

  /** Any number of emits extends the chain by as many entries, the old text staying a prefix. */
  lemma {:induction false} OneByOneExtends(hash: string -> Digest, file: string, n: nat, jobs: seq<Job>)
    requires Chained(hash, file, n) && forall k :: 0 <= k < |jobs| ==> PlainCounts(jobs[k].args)
    ensures Chained(hash, OneByOne(hash, file, jobs), n + |jobs|)
    ensures file <= OneByOne(hash, file, jobs)
  {
    hide NextReceipt, Canonical, Chained, PlainCounts, VerifierLines;
    if jobs != [] {
      var job := jobs[|jobs| - 1];
      OneByOneExtends(hash, file, n, jobs[..|jobs| - 1]);
      EmitChains(hash, OneByOne(hash, file, jobs[..|jobs| - 1]), n + |jobs| - 1, job.args, job.now);
    }
  }

  /** With arguments in the schema's domain the longer ledger verifies. */
  lemma {:induction false} OneByOneVerified(hash: string -> Digest, file: string, n: nat, jobs: seq<Job>)
    requires CleanFile(Checked(hash), file, n) && forall k :: 0 <= k < |jobs| ==> InDomain(jobs[k].args)
    ensures CleanFile(Checked(hash), OneByOne(hash, file, jobs), n + |jobs|)
  {
    hide NextReceipt, Canonical, CleanFile, InDomain, VerifierLines;
    if jobs != [] {
      var job := jobs[|jobs| - 1];
      OneByOneVerified(hash, file, n, jobs[..|jobs| - 1]);
      EmitExtends(hash, OneByOne(hash, file, jobs[..|jobs| - 1]), n + |jobs| - 1, job.args, job.now);
    }
  }

  /** The calls in the order in which their lines were written. */
  function JobsOf(s: State): seq<Job>
    requires forall k :: 0 <= k < |s.log| ==> s.log[k].call < |s.calls|
  {
    seq(|s.log|, k requires 0 <= k < |s.log| => Job(s.calls[s.log[k].call].args, s.log[k].now))
  }

  lemma {:induction false} WholeLinesInOrder(hash: string -> Digest, base: string, s: State, k: nat)
    requires Logged(s) && Linear(hash, base, s) && k <= |s.log|
    ensures base + Encode(s.log[..k]) == OneByOne(hash, base, JobsOf(s)[..k])
  {
    hide NextReceipt, Canonical, Encode;
    if k == 0 {
      NoLines(base, s.log);
    } else {
      WholeLinesInOrder(hash, base, s, k - 1);
      var before, c := s.log[..k - 1], s.log[k - 1];
      assert s.log[..k] == before + [c];
      EncodeOneMore(before, c);
      JoinBase(base, Encode(before), Canonical(c.receipt));
      assert JobsOf(s)[..k][..k - 1] == JobsOf(s)[..k - 1];
    }
  }

  /** Concurrency is invisible: whenever no piece of an entry is in the file, it is what the calls that
    wrote would have written one after the other, and each that returned did so with what it would
    have returned at its turn. */
  lemma {:induction false} SameAsOneByOne(hash: string -> Digest, base: string, n0: nat, s: State)
    requires Chained(hash, base, n0) && Reachable(hash, base, s)
    ensures Logged(s)
    ensures s.stub == "" ==> s.file == OneByOne(hash, base, JobsOf(s))
    ensures forall k :: 0 <= k < |s.log| && s.calls[s.log[k].call].phase.Returned? ==>
              NextReceipt(hash, OneByOne(hash, base, JobsOf(s)[..k]), JobsOf(s)[k].args, JobsOf(s)[k].now) ==
              Success(s.calls[s.log[k].call].phase.receipt)
  {
    hide NextReceipt, Canonical, Encode, Chained, OneByOne, Reachable, SomeCrash, AllPlainCounts, Locking, FileText;
    ReachableInv(hash, base, n0, s);
    if s.stub == "" {
      FreeText(hash, base, s);
      WholeLinesInOrder(hash, base, s, |s.log|);
      assert s.log[..|s.log|] == s.log && JobsOf(s)[..|s.log|] == JobsOf(s);
    }
    forall k | 0 <= k < |s.log| && s.calls[s.log[k].call].phase.Returned?
      ensures NextReceipt(hash, OneByOne(hash, base, JobsOf(s)[..k]), JobsOf(s)[k].args, JobsOf(s)[k].now) ==
              Success(s.calls[s.log[k].call].phase.receipt)
    {
      WholeLinesInOrder(hash, base, s, k);
    }
  }

  // ---------- the order of commits is the order of time ----------

  /** Lines and arguments stay. */
  ghost predicate Extends(s: State, s': State) {
    && s.log <= s'.log && |s.calls| <= |s'.calls|
    && forall i :: 0 <= i < |s.calls| ==> s'.calls[i].args == s.calls[i].args
  }

  lemma {:induction false} StepExtends(hash: string -> Digest, s: State, e: Event)
    requires Enabled(s, e)
    ensures Extends(s, NextState(hash, s, e))
  {
    hide NextReceipt, Canonical;
  }

  lemma {:induction false} RunExtends(hash: string -> Digest, states: seq<State>, events: seq<Event>, j: nat, k: nat)
    requires IsRun(hash, states, events) && j <= k < |states|
    ensures Extends(states[j], states[k])
    decreases k - j
  {
    hide NextState, Enabled;
    if j < k {
      StepExtends(hash, states[j], events[j]);
      RunExtends(hash, states, events, j + 1, k);
    }
  }

  /** A call that has written its line before another is opened comes first in the order in which
    `SameAsOneByOne` replays them: a returned receipt is never overtaken by a later call. */
  lemma {:induction false} RealTimeOrder(hash: string -> Digest, base: string, n0: nat, states: seq<State>,
                                         events: seq<Event>, j: nat, k: nat, a: nat, b: nat)
    requires Chained(hash, base, n0) && IsRun(hash, states, events) && Initial(base, states[0]) && j <= k < |states|
    requires a < |states[k].log| && b < |states[k].log|
    requires var first, second := states[k].log[a].call, states[k].log[b].call;
             && first < |states[j].calls| && WroteAll(states[j].calls[first].phase)
             && |states[j].calls| <= second
    ensures a < b
  {
    hide *;
    RunExtends(hash, states, events, j, k);
    RunInv(hash, base, n0, states, events, j);
    RunInv(hash, base, n0, states, events, k);
    InvParts(hash, base, states[j]);
    InvParts(hash, base, states[k]);
    LoggedInOrder(states[j], states[k], a, b);
  }

  lemma {:induction false} LoggedInOrder(s: State, s': State, a: nat, b: nat)
    requires Logged(s) && Logged(s') && Extends(s, s') && a < |s'.log| && b < |s'.log|
    requires s'.log[a].call < |s.calls| && WroteAll(s.calls[s'.log[a].call].phase) && |s.calls| <= s'.log[b].call
    ensures a < b
  {
    hide Appended, WroteAll;
    assert Recorded(s.log, s'.log[a].call);
    var m :| 0 <= m < |s.log| && s.log[m].call == s'.log[a].call;
    assert forall i :: 0 <= i < |s.log| ==> s'.log[i] == s.log[i];
    assert m == a;
  }

  // ---------- what the lines say ----------

  /** The `k`-th new line of a run is entry `n0 + k`: it carries the arguments of the call that wrote
    it, and its own id, number and time. */
  lemma {:induction false} LineIs(hash: string -> Digest, base: string, n0: nat, s: State, k: nat)
    requires Chained(hash, base, n0) && Reachable(hash, base, s) && k < |s.log|
    ensures s.log[k].call < |s.calls| && s.log[k].receipt.Obj?
    ensures var c := s.log[k];
            && Carries(hash, c.receipt.fields, s.calls[c.call].args)
            && Stamped(c.receipt.fields, s.calls[c.call].args, c.now, n0 + k)
  {
    hide Chained, Reachable, NextReceipt, Encode, Logged, Locking, FileText, Carries, Stamped, LastEntry, Follows,
         Canonical;
    ReachableInv(hash, base, n0, s);
    var c := s.log[k];
    var file, args := base + Encode(s.log[..k]), s.calls[c.call].args;
    WholeLines(hash, base, n0, s, k);
    EmitChains(hash, file, n0 + k, args, c.now);
    ReceiptIs(hash, file, args, c.now);
    var n :| Follows(hash, LastEntry(file).value, c.receipt.fields, args, c.now, n);
    SameNumber(hash, LastEntry(file).value, c.receipt.fields, args, c.now, n, n0 + k);
  }

  lemma {:induction false} SameNumber(hash: string -> Digest, prev: Option<Value>, fields: seq<Field>, a: Args,
                                      now: string, n: int, m: nat)
    requires Follows(hash, prev, fields, a, now, n) && Find(fields, "ledgerSeq") == Some(Num(m))
    ensures Stamped(fields, a, now, m)
  {
    hide Find, Continues, Canonical;
  }

  /** No two entries of a run have one id, whatever their tasks. */
  lemma {:induction false} IdsDiffer(hash: string -> Digest, base: string, n0: nat, s: State, j: nat, k: nat)
    requires Chained(hash, base, n0) && Reachable(hash, base, s) && j < k < |s.log|
    ensures s.log[j].receipt.Obj? && s.log[k].receipt.Obj?
    ensures Find(s.log[j].receipt.fields, "id").Some?
    ensures Find(s.log[j].receipt.fields, "id") != Find(s.log[k].receipt.fields, "id")
  {
    hide Chained, Reachable, Carries, IntText, Find;
    LineIs(hash, base, n0, s, j);
    LineIs(hash, base, n0, s, k);
    var a, b := s.calls[s.log[j].call].args, s.calls[s.log[k].call].args;
    if Find(s.log[j].receipt.fields, "id") == Find(s.log[k].receipt.fields, "id") {
      IdNamesEntry(a.task, n0 + j, b.task, n0 + k);
    }
  }

  // ---------- nothing is overwritten; a torn entry stops the ledger ----------

  lemma {:induction false} AppendOnly(hash: string -> Digest, states: seq<State>, events: seq<Event>, j: nat, k: nat)
    requires IsRun(hash, states, events) && j <= k < |states|
    ensures states[j].file <= states[k].file
    decreases k - j
  {
    if j < k {
      assert Enabled(states[j], events[j]);
      AppendOnly(hash, states, events, j + 1, k);
    }
  }

  /** A crash has left part of an entry behind. */
  ghost predicate Stopped(s: State) { s.stub != "" && !Busy(s) }

  lemma {:induction false} StoppedStep(hash: string -> Digest, base: string, n0: nat, s: State, e: Event)
    requires Chained(hash, base, n0) && Inv(hash, base, s) && Enabled(s, e) && Stopped(s)
    ensures var s' := NextState(hash, s, e);
            && Stopped(s') && s'.file == s.file && s'.log == s.log && s'.stub == s.stub
            && (e.Decide? ==> s'.calls[e.call].phase == Failing(TailNotJson))
  {
    hide NextReceipt, Canonical, Encode, Chained, Logged, Linear, AllPlainCounts, TornEntry, Locking;
    var s' := NextState(hash, s, e);
    if !e.Open? {
      var i, phase := e.call, s.calls[e.call].phase;
      assert phase.Writing? ==> WroteAll(phase);
      if e.Decide? {
        StubStops(hash, base, n0, s, i, e.now);
      }
      NoneBusy(s, s', i);
    }
  }

  lemma {:induction false} NoneBusy(s: State, s': State, i: nat)
    requires SameBut(s, s', i)
    requires !Busy(s) && !(s'.calls[i].phase.Writing? && s'.calls[i].phase.left != "")
    ensures !Busy(s')
  {
  }

  lemma {:induction false} StubStops(hash: string -> Digest, base: string, n0: nat, s: State, i: nat, now: string)
    requires Chained(hash, base, n0) && Inv(hash, base, s) && Stopped(s)
    requires i < |s.calls| && s.calls[i].phase.Scanning? && |s.calls[i].phase.seen| == |s.file|
    ensures NextReceipt(hash, s.calls[i].phase.seen, s.calls[i].args, now) == Raised(TailNotJson)
  {
    hide NextReceipt, Canonical, Encode, Chained, Logged, Linear, AllPlainCounts, TornEntry, Locking, Busy;
    AllWholeLines(hash, base, n0, s);
    assert InFlight(hash, base, s, s.calls[i]);
    assert s.calls[i].phase.seen == s.file;
    TornDecision(hash, base + Encode(s.log), n0 + |s.log|, s.stub, s.calls[i].args, now);
  }

  /** Once an entry is torn, no step of any call changes a byte or writes an entry again. */
  lemma {:induction false} TornForever(hash: string -> Digest, base: string, n0: nat, states: seq<State>,
                                       events: seq<Event>, j: nat, k: nat)
    requires Chained(hash, base, n0) && IsRun(hash, states, events) && Initial(base, states[0]) && j <= k < |states|
    requires Stopped(states[j])
    ensures Stopped(states[k]) && states[k].file == states[j].file && states[k].log == states[j].log
    decreases k - j
  {
    hide NextState, Stopped, Inv, Initial, Chained;
    if j < k {
      RunInv(hash, base, n0, states, events, j);
      StoppedStep(hash, base, n0, states[j], events[j]);
      TornForever(hash, base, n0, states, events, j + 1, k);
    }
  }

  // ---------- every call finishes ----------

  function Rank(phase: Phase): nat {
    match phase
    case Opened => 4
    case Scanning(_) => 3
    case Writing(_, _, _) => 2
    case Failing(_) => 1
    case _ => 0
  }

  function TotalRank(calls: seq<Call>): nat {
    if calls == [] then 0 else Rank(calls[0].phase) + TotalRank(calls[1..])
  }

  /** What the lock holder still has to read or to write. */
  function Remaining(s: State): int {
    if s.holder.None? || s.holder.value >= |s.calls| then 0
    else
      match s.calls[s.holder.value].phase
      case Scanning(seen) => |s.file| - |seen|
      case Writing(_, _, left) => |left|
      case _ => 0
  }

  lemma {:induction false} RankChanges(calls: seq<Call>, i: nat, phase: Phase)
    requires i < |calls|
    ensures TotalRank(SetPhase(calls, i, phase)) == TotalRank(calls) - Rank(calls[i].phase) + Rank(phase)
  {
    var calls' := SetPhase(calls, i, phase);
    if i == 0 {
      assert calls'[1..] == calls[1..];
    } else {
      RankChanges(calls[1..], i - 1, phase);
      assert calls'[1..] == SetPhase(calls[1..], i - 1, phase);
    }
  }

  /** Every step of a call that has begun uses up something, so no run goes on without new calls. */
  lemma {:induction false} EveryStepCounts(hash: string -> Digest, base: string, s: State, e: Event)
    requires Inv(hash, base, s) && Enabled(s, e) && !e.Open?
    ensures var s' := NextState(hash, s, e);
            || TotalRank(s'.calls) < TotalRank(s.calls)
            || (TotalRank(s'.calls) == TotalRank(s.calls) && 0 <= Remaining(s') < Remaining(s))
  {
    hide NextReceipt, Canonical, Encode, Logged, Linear, AllPlainCounts, TornEntry, TotalRank, FileText;
    var s', i := NextState(hash, s, e), e.call;
    assert Holds(s.calls[i].phase) <==> s.holder == Some(i);
    RankChanges(s.calls, i, s'.calls[i].phase);
    assert s'.calls == SetPhase(s.calls, i, s'.calls[i].phase);
  }

  predicate AllFinished(s: State) {
    forall i :: 0 <= i < |s.calls| ==> Finished(s.calls[i].phase)
  }

  /** A step, other than a crash, that some unfinished call can take now. */
  lemma {:induction false} SomeStep(hash: string -> Digest, base: string, s: State, now: string) returns (e: Event)
    requires Inv(hash, base, s) && !AllFinished(s)
    ensures Enabled(s, e) && !e.Crash? && !e.Open?
  {
    hide NextReceipt, Canonical, Encode, Logged, Linear, AllPlainCounts, TornEntry;
    var i: nat :| i < |s.calls| && !Finished(s.calls[i].phase);
    assert InFlight(hash, base, s, s.calls[i]);
    if s.holder.Some? && s.calls[i].phase.Opened? {
      i := s.holder.value;
      assert Holds(s.calls[i].phase) <==> s.holder == Some(i);
      assert InFlight(hash, base, s, s.calls[i]);
    }
    match s.calls[i].phase
    case Opened => e := Acquire(i);
    case Scanning(seen) => e := if |seen| == |s.file| then Decide(i, now) else Read(i, |s.file| - |seen|);
    case Writing(_, _, left) => e := if left == "" then Release(i) else Write(i, |left|);
    case Failing(_) => e := Release(i);
  }

  /** No deadlock: from every reachable state the calls can all be brought to an end without a crash. */
  lemma {:induction false} EveryCallCanFinish(hash: string -> Digest, base: string, n0: nat, s: State, now: string)
    returns (states: seq<State>, events: seq<Event>)
    requires Chained(hash, base, n0) && Inv(hash, base, s)
    ensures IsRun(hash, states, events) && states[0] == s && AllFinished(states[|events|])
    ensures forall k :: 0 <= k < |events| ==> !events[k].Crash? && !events[k].Open?
    decreases TotalRank(s.calls), Remaining(s)
  {
    hide NextState, Inv, Chained, Enabled, TotalRank, Remaining, AllFinished;
    if AllFinished(s) {
      states, events := [s], [];
    } else {
      var e := SomeStep(hash, base, s, now);
      EveryStepCounts(hash, base, s, e);
      KeepsInv(hash, base, n0, s, e);
      states, events := EveryCallCanFinish(hash, base, n0, NextState(hash, s, e), now);
      states, events := [s] + states, [e] + events;
    }
  }
}
