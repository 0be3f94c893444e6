/** Any number of concurrent `emit_receipt` calls on one ledger, as a state machine.

  A call opens the file, waits for the exclusive lock, reads the file piece by piece to its
  end, decides on its receipt, writes the line piece by piece and releases the lock. Between
  any two of these steps other calls may move, readers may look at the file, and the call
  may crash. Canonical text is ASCII, so a piece of text is a piece of bytes. */
module EmitterRuns {
  import opened Sequences
  import opened Json
  import opened JsonCanonical
  import opened JsonPrefix
  import opened Lines
  import opened Receipts
  import opened Emitter
  import opened EmitterDomain
  import opened EmitterLaws

  datatype Phase =
    | Opened
    | Scanning(seen: string)
    | Writing(now: string, receipt: Value, left: string)
    | Failing(why: Failure)  // an exception is on its way to the `finally` clause
    | Returned(receipt: Value)
    | Threw(why: Failure)
    | Crashed

  datatype Call = Call(args: Args, phase: Phase)

  /** A whole line that reached the file, and the call it came from. */
  datatype Commit = Commit(call: nat, now: string, receipt: Value)

  /** `stub` and `log` only record history: the text after the last whole line written by these
    calls, and the whole lines in order. No step depends on them. */
  datatype State = State(file: string, holder: Option<nat>, calls: seq<Call>, stub: string, log: seq<Commit>)

  datatype Event =
    | Open(args: Args)
    | Acquire(call: nat)
    | Read(call: nat, size: nat)
    | Decide(call: nat, now: string)
    | Write(call: nat, size: nat)
    | Release(call: nat)
    | Crash(call: nat)

  predicate Holds(phase: Phase) { phase.Scanning? || phase.Writing? || phase.Failing? }

  predicate Finished(phase: Phase) { phase.Returned? || phase.Threw? || phase.Crashed? }

  /** Token counts that are no values a program can hold (floats), and a crash that loses exactly
    the "\n" of a line, are not part of the model. */
  ghost predicate Enabled(s: State, e: Event) {
    if e.Open? then PlainCounts(e.args) else e.call < |s.calls| && Ready(s, e, s.calls[e.call].phase)
  }

  predicate Ready(s: State, e: Event, phase: Phase)
    requires !e.Open?
  {
    match e
    case Acquire(_) => phase.Opened? && s.holder == None
    case Read(_, size) => phase.Scanning? && 0 < size <= |s.file| - |phase.seen|
    case Decide(_, _) => phase.Scanning? && |s.file| == |phase.seen|
    case Write(_, size) => phase.Writing? && 0 < size <= |phase.left|
    case Release(_) => (phase.Writing? && phase.left == "") || phase.Failing?
    case Crash(_) => !Finished(phase) && !(phase.Writing? && phase.left == "\n")
  }

  function SetPhase(calls: seq<Call>, i: nat, phase: Phase): (r: seq<Call>)
    requires i < |calls|
    ensures |r| == |calls| && r[i] == Call(calls[i].args, phase)
    ensures forall j :: 0 <= j < |r| ==> r[j].args == calls[j].args && (j != i ==> r[j] == calls[j])
  {
    calls[i := calls[i].(phase := phase)]
  }

  function Decision(hash: string -> Digest, seen: string, a: Args, now: string): Phase {
    match NextReceipt(hash, seen, a, now)
    case Success(r) => Writing(now, r, Canonical(r) + "\n")
    case Raised(why) => Failing(why)
  }

  function NextState(hash: string -> Digest, s: State, e: Event): State
    requires Enabled(s, e)
  {
    if e.Open? then s.(calls := s.calls + [Call(e.args, Opened)]) else Step(hash, s, e)
  }

  function Step(hash: string -> Digest, s: State, e: Event): State
    requires Enabled(s, e) && !e.Open?
  {
    var i, phase := e.call, s.calls[e.call].phase;
    match e
    case Acquire(_) => s.(calls := SetPhase(s.calls, i, Scanning("")), holder := Some(i))
    case Read(_, size) =>
      s.(calls := SetPhase(s.calls, i, Scanning(phase.seen + s.file[|phase.seen|..|phase.seen| + size])))
    case Decide(_, now) => s.(calls := SetPhase(s.calls, i, Decision(hash, phase.seen, s.calls[i].args, now)))
    case Write(_, size) =>
      var whole := size == |phase.left|;
      s.(calls := SetPhase(s.calls, i, phase.(left := phase.left[size..])),
         file := s.file + phase.left[..size],
         stub := if whole then "" else s.stub + phase.left[..size],
         log := s.log + if whole then [Commit(i, phase.now, phase.receipt)] else [])
    case Release(_) =>
      s.(calls := SetPhase(s.calls, i, if phase.Writing? then Returned(phase.receipt) else Threw(phase.why)),
         holder := None)
    case Crash(_) =>
      s.(calls := SetPhase(s.calls, i, Crashed), holder := if s.holder == Some(i) then None else s.holder)
  }

  /** `states` is a run through `events`. */
  ghost predicate IsRun(hash: string -> Digest, states: seq<State>, events: seq<Event>) {
    |states| == |events| + 1 &&
    forall k :: 0 <= k < |events| ==> Enabled(states[k], events[k]) && states[k + 1] == NextState(hash, states[k],
      events[k])
  }

  /** Nobody has called yet. */
  ghost predicate Initial(base: string, s: State) {
    s == State(base, None, [], "", [])
  }

  // ---------- the invariant ----------

  function Encode(log: seq<Commit>): string {
    if log == [] then "" else Encode(log[..|log| - 1]) + Canonical(log[|log| - 1].receipt) + "\n"
  }

  /** The lock is held by the one call that is between acquiring and releasing it. */
  ghost predicate Locking(s: State) {
    && (s.holder.Some? ==> s.holder.value < |s.calls|)
    && forall i :: 0 <= i < |s.calls| ==> (Holds(s.calls[i].phase) <==> s.holder == Some(i))
  }

  predicate Appended(phase: Phase, r: Value) {
    || phase == Returned(r)
    || (phase.Writing? && phase.receipt == r && phase.left == "")
    || phase.Crashed?
  }

  predicate WroteAll(phase: Phase) { phase.Returned? || (phase.Writing? && phase.left == "") }

  ghost predicate Recorded(log: seq<Commit>, i: nat) {
    exists k :: 0 <= k < |log| && log[k].call == i
  }

  /** The log holds each call that wrote its whole line once, with its receipt. */
  ghost predicate Logged(s: State) {
    && (forall k :: 0 <= k < |s.log| ==>
          s.log[k].call < |s.calls| && Appended(s.calls[s.log[k].call].phase, s.log[k].receipt))
    && (forall j, k :: 0 <= j < k < |s.log| ==> s.log[j].call != s.log[k].call)
    && (forall i :: 0 <= i < |s.calls| && WroteAll(s.calls[i].phase) ==> Recorded(s.log, i))
  }

  /** Every line is what `emit_receipt` yields alone on the lines before it. */
  ghost predicate Linear(hash: string -> Digest, base: string, s: State) {
    forall k :: 0 <= k < |s.log| ==>
      && s.log[k].call < |s.calls|
      && NextReceipt(hash, base + Encode(s.log[..k]), s.calls[s.log[k].call].args, s.log[k].now) ==
        Success(s.log[k].receipt)
  }

  ghost predicate AllPlainCounts(calls: seq<Call>) {
    forall i :: 0 <= i < |calls| ==> PlainCounts(calls[i].args)
  }

  /** The text behind the whole lines belongs to the call that is writing; a call that raised met
    what a crash left behind. */
  ghost predicate InFlight(hash: string -> Digest, base: string, s: State, call: Call) {
    match call.phase
    case Scanning(seen) => seen <= s.file
    case Writing(now, r, left) =>
      if left == "" then s.stub == ""
      else
        && NextReceipt(hash, base + Encode(s.log), call.args, now) == Success(r)
        && s.stub + left == Canonical(r) + "\n"
    case Failing(_) => SomeCrash(s)
    case Threw(_) => SomeCrash(s)
    case _ => true
  }

  ghost predicate Busy(s: State) {
    exists i :: 0 <= i < |s.calls| && s.calls[i].phase.Writing? && s.calls[i].phase.left != ""
  }

  ghost predicate SomeCrash(s: State) {
    exists i :: 0 <= i < |s.calls| && s.calls[i].phase.Crashed?
  }

  ghost predicate FileText(hash: string -> Digest, base: string, s: State) {
    && s.file == base + Encode(s.log) + s.stub
    && (forall i :: 0 <= i < |s.calls| ==> InFlight(hash, base, s, s.calls[i]))
    && (Busy(s) || s.stub == "" || (TornEntry(s.stub) && SomeCrash(s)))
  }

  ghost predicate Inv(hash: string -> Digest, base: string, s: State) {
    AllPlainCounts(s.calls) && Locking(s) && Logged(s) && Linear(hash, base, s) && FileText(hash, base, s)
  }

  // ---------- every step keeps it ----------

  lemma {:induction false} KeepsLocking(hash: string -> Digest, s: State, e: Event)
    requires Enabled(s, e) && Locking(s)
    ensures Locking(NextState(hash, s, e))
  {
    hide NextReceipt, Canonical;
  }

  lemma {:induction false} KeepsLogged(hash: string -> Digest, s: State, e: Event)
    requires Enabled(s, e) && Logged(s)
    ensures Logged(NextState(hash, s, e))
  {
    hide NextReceipt, Canonical, Recorded, Decision;
    if e.Open? {
      hide Appended, WroteAll;
    } else if e.Write? && e.size == |s.calls[e.call].phase.left| {
      hide NextState, Logged, Appended, WroteAll;
      LogsWhole(hash, s, e);
    } else {
      hide Logged;
      LogsNothing(hash, s, e);
    }
  }

  lemma {:induction false} LogsNothing(hash: string -> Digest, s: State, e: Event)
    requires Enabled(s, e) && Logged(s) && !e.Open?
    requires e.Write? ==> e.size < |s.calls[e.call].phase.left|
    ensures Logged(NextState(hash, s, e))
  {
    hide NextReceipt, Canonical, Recorded;
    var s' := NextState(hash, s, e);
    assert s.log + [] == s.log;
    var before, after := s.calls[e.call].phase, s'.calls[e.call].phase;
    assert forall r :: Appended(before, r) ==> Appended(after, r);
    assert WroteAll(after) ==> WroteAll(before);
  }

  lemma {:induction false} RecordMore(log: seq<Commit>, c: Commit)
    ensures Recorded(log + [c], c.call)
    ensures forall i :: Recorded(log, i) ==> Recorded(log + [c], i)
  {
    assert (log + [c])[|log|].call == c.call;
    forall i | Recorded(log, i) ensures Recorded(log + [c], i) {
      var k :| 0 <= k < |log| && log[k].call == i;
      assert (log + [c])[k].call == i;
    }
  }

  lemma {:induction false} LogsWhole(hash: string -> Digest, s: State, e: Event)
    requires Enabled(s, e) && Logged(s) && e.Write? && e.size == |s.calls[e.call].phase.left|
    ensures Logged(NextState(hash, s, e))
  {
    hide NextReceipt, Canonical, Recorded;
    RecordMore(s.log, Commit(e.call, s.calls[e.call].phase.now, s.calls[e.call].phase.receipt));
  }

  lemma {:induction false} KeepsLinear(hash: string -> Digest, base: string, s: State, e: Event)
    requires Enabled(s, e) && Linear(hash, base, s) && FileText(hash, base, s)
    ensures Linear(hash, base, NextState(hash, s, e))
  {
    hide NextReceipt, Canonical, Encode, TornEntry, SomeCrash, Busy;
    var s' := NextState(hash, s, e);
    assert s.log[..|s.log|] == s.log;
    assert !e.Open? ==> InFlight(hash, base, s, s.calls[e.call]);
    forall k | 0 <= k < |s'.log|
      ensures s'.log[k].call < |s'.calls|
      ensures NextReceipt(hash, base + Encode(s'.log[..k]), s'.calls[s'.log[k].call].args, s'.log[k].now) ==
              Success(s'.log[k].receipt)
    {
      assert k <= |s.log| ==> s'.log[..k] == s.log[..k];
    }
  }

  lemma {:induction false} EncodeOneMore(log: seq<Commit>, c: Commit)
    ensures Encode(log + [c]) == Encode(log) + Canonical(c.receipt) + "\n"
  {
    hide Canonical;
    assert (log + [c])[..|log|] == log;
  }

  /** The lines of a log, as `verify_ledger` reads them. */
  function LogLines(log: seq<Commit>): seq<string> {
    seq(|log|, k requires 0 <= k < |log| => Canonical(log[k].receipt))
  }

  /** What the whole lines amount to: a verified ledger, entry `n0 + k` being the `k`-th line written. */
  lemma {:induction false} WholeLines(hash: string -> Digest, base: string, n0: nat, s: State, k: nat)
    requires Chained(hash, base, n0) && AllPlainCounts(s.calls) && Linear(hash, base, s) && k <= |s.log|
    ensures Chained(hash, base + Encode(s.log[..k]), n0 + k)
    ensures VerifierLines(base + Encode(s.log[..k])) == VerifierLines(base) + LogLines(s.log[..k])
  {
    hide NextReceipt, Canonical, Chained, VerifierLines, PlainCounts, Encode, LogLines;
    if k == 0 {
      NoLines(base, s.log);
    } else {
      WholeLines(hash, base, n0, s, k - 1);
      var before, c := s.log[..k - 1], s.log[k - 1];
      assert s.log[..k] == before + [c];
      OneMoreLine(hash, base, n0 + (k - 1), before, c, s.calls[c.call].args);
      LogLinesOneMore(before, c);
      Associative(VerifierLines(base), LogLines(before), [Canonical(c.receipt)]);
    }
  }

  lemma {:induction false} NoLines(base: string, log: seq<Commit>)
    ensures base + Encode(log[..0]) == base
    ensures VerifierLines(base) + LogLines(log[..0]) == VerifierLines(base)
  {
  }

  lemma {:induction false} OneMoreLine(hash: string -> Digest, base: string, n: nat, log: seq<Commit>, c: Commit,
                                       a: Args)
    requires Chained(hash, base + Encode(log), n) && PlainCounts(a)
    requires NextReceipt(hash, base + Encode(log), a, c.now) == Success(c.receipt)
    ensures Chained(hash, base + Encode(log + [c]), n + 1)
    ensures VerifierLines(base + Encode(log + [c])) == VerifierLines(base + Encode(log)) + [Canonical(c.receipt)]
  {
    hide NextReceipt, Canonical, Chained, VerifierLines, PlainCounts, Encode;
    EncodeOneMore(log, c);
    JoinBase(base, Encode(log), Canonical(c.receipt));
    EmitChains(hash, base + Encode(log), n, a, c.now);
  }

  lemma {:induction false} JoinBase(base: string, lines: string, line: string)
    ensures base + lines + line + "\n" == base + (lines + line + "\n")
  {
  }

  lemma {:induction false} LogLinesOneMore(log: seq<Commit>, c: Commit)
    ensures LogLines(log + [c]) == LogLines(log) + [Canonical(c.receipt)]
  {
    hide Canonical;
  }

  lemma {:induction false} AllWholeLines(hash: string -> Digest, base: string, n0: nat, s: State)
    requires Chained(hash, base, n0) && Inv(hash, base, s)
    ensures Chained(hash, base + Encode(s.log), n0 + |s.log|)
    ensures VerifierLines(base + Encode(s.log)) == VerifierLines(base) + LogLines(s.log)
  {
    hide NextReceipt, Chained, VerifierLines, Encode, LogLines, FileText, Logged, Locking;
    assert s.log[..|s.log|] == s.log;
    WholeLines(hash, base, n0, s, |s.log|);
  }

  /** The receipt being written is an object, so its proper prefixes are not JSON. */
  lemma {:induction false} StubIsTorn(hash: string -> Digest, base: string, n0: nat, s: State, i: nat)
    requires Chained(hash, base, n0) && Inv(hash, base, s)
    requires i < |s.calls| && s.calls[i].phase.Writing? && s.calls[i].phase.left != "" && s.calls[i].phase.left != "\n"
    ensures s.stub == "" || TornEntry(s.stub)
  {
    hide NextReceipt, Canonical, Chained, VerifierLines, PlainCounts, Encode, Busy, SomeCrash, Logged, Linear, Locking;
    AllWholeLines(hash, base, n0, s);
    var call := s.calls[i];
    assert InFlight(hash, base, s, call);
    EmitChains(hash, base + Encode(s.log), n0 + |s.log|, call.args, call.phase.now);
    var r, left := call.phase.receipt, call.phase.left;
    ProperPrefix(s.stub, left, Canonical(r));
    ObjPlain(r.fields);
    assert r == Obj(r.fields);
    assert s.stub != "" ==> TornFrom(s.stub, r.fields);
  }

  lemma {:induction false} ProperPrefix(stub: string, left: string, line: string)
    requires stub + left == line + "\n" && left != "" && left != "\n"
    ensures Torn(stub, line)
  {
    var k := |left| - 1;
    assert left[k] == (stub + left)[|stub| + k] == (line + "\n")[|line|];
    assert left == left[..k] + "\n";
    assert stub == (stub + left)[..|stub|] == line[..|stub|];
  }

  /** A whole line without its "\n". */
  lemma {:induction false} StubIsLine(stub: string, left: string, line: string)
    requires stub + left == line + "\n" && left == "\n"
    ensures stub == line
  {
    assert stub == (stub + left)[..|stub|] == line;
  }

  lemma {:induction false} KeepsFileText(hash: string -> Digest, base: string, n0: nat, s: State, e: Event)
    requires Chained(hash, base, n0) && Inv(hash, base, s) && Enabled(s, e)
    ensures FileText(hash, base, NextState(hash, s, e))
  {
    match e
    case Open(_) => OpenStep(hash, base, s, e);
    case Acquire(_) => LockSteps(hash, base, s, e);
    case Read(_, _) => ReadStep(hash, base, s, e);
    case Decide(_, _) => DecideStep(hash, base, n0, s, e);
    case Write(_, _) => WriteStep(hash, base, s, e);
    case Release(_) => LockSteps(hash, base, s, e);
    case Crash(_) => CrashStep(hash, base, n0, s, e);
  }

  lemma {:induction false} OpenStep(hash: string -> Digest, base: string, s: State, e: Event)
    requires Inv(hash, base, s) && Enabled(s, e) && e.Open?
    ensures FileText(hash, base, NextState(hash, s, e))
  {
    hide NextReceipt, Canonical, Encode, TornEntry, Logged, Linear, AllPlainCounts;
    var s' := NextState(hash, s, e);
    assert forall i :: 0 <= i < |s.calls| ==> s'.calls[i] == s.calls[i];
    assert Busy(s) ==> Busy(s') by { BusyStays(s, s'); }
    CrashStays(s, s');
    forall i | 0 <= i < |s'.calls| ensures InFlight(hash, base, s', s'.calls[i]) {
      assert i < |s.calls| ==> InFlight(hash, base, s, s.calls[i]);
    }
  }

  lemma {:induction false} BusyStays(s: State, s': State)
    requires |s.calls| <= |s'.calls| && forall i :: 0 <= i < |s.calls| ==> s'.calls[i] == s.calls[i]
    ensures Busy(s) ==> Busy(s')
  {
    if Busy(s) {
      var i :| 0 <= i < |s.calls| && s.calls[i].phase.Writing? && s.calls[i].phase.left != "";
      assert s'.calls[i].phase.Writing?;
    }
  }

  lemma {:induction false} CrashStays(s: State, s': State)
    requires |s.calls| <= |s'.calls| && forall i :: 0 <= i < |s.calls| ==> s'.calls[i] == s.calls[i]
    ensures SomeCrash(s) ==> SomeCrash(s')
  {
    if SomeCrash(s) {
      var i :| 0 <= i < |s.calls| && s.calls[i].phase.Crashed?;
      assert s'.calls[i].phase.Crashed?;
    }
  }

  /** A step that only changes the phase of a call to one with nothing in flight. */
  lemma {:induction false} LockSteps(hash: string -> Digest, base: string, s: State, e: Event)
    requires Inv(hash, base, s) && Enabled(s, e) && (e.Acquire? || e.Release?)
    ensures FileText(hash, base, NextState(hash, s, e))
  {
    hide NextReceipt, Canonical, Encode, TornEntry, Logged, Linear, AllPlainCounts;
    var s' := NextState(hash, s, e);
    KeepsBusy(s, s', e.call);
    KeepsCrash(s, s', e.call);
    forall i | 0 <= i < |s'.calls| ensures InFlight(hash, base, s', s'.calls[i]) {
      assert InFlight(hash, base, s, s.calls[i]);
    }
  }

  /** Only call `i` may have changed. */
  ghost predicate SameBut(s: State, s': State, i: nat) {
    && |s.calls| == |s'.calls| && i < |s.calls|
    && forall j :: 0 <= j < |s.calls| && j != i ==> s'.calls[j] == s.calls[j]
  }

  lemma {:induction false} KeepsBusy(s: State, s': State, i: nat)
    requires SameBut(s, s', i)
    requires s.calls[i].phase.Writing? && s.calls[i].phase.left != "" ==>
               s'.calls[i].phase.Writing? && s'.calls[i].phase.left != ""
    ensures Busy(s) ==> Busy(s')
  {
    if Busy(s) {
      var j :| 0 <= j < |s.calls| && s.calls[j].phase.Writing? && s.calls[j].phase.left != "";
      assert s'.calls[j].phase.Writing? && s'.calls[j].phase.left != "";
    }
  }

  lemma {:induction false} KeepsCrash(s: State, s': State, i: nat)
    requires SameBut(s, s', i)
    requires !s.calls[i].phase.Crashed?
    ensures SomeCrash(s) ==> SomeCrash(s')
  {
    if SomeCrash(s) {
      var j :| 0 <= j < |s.calls| && s.calls[j].phase.Crashed?;
      assert s'.calls[j].phase.Crashed?;
    }
  }

  lemma {:induction false} ReadStep(hash: string -> Digest, base: string, s: State, e: Event)
    requires Inv(hash, base, s) && Enabled(s, e) && e.Read?
    ensures FileText(hash, base, NextState(hash, s, e))
  {
    hide NextReceipt, Canonical, Encode, TornEntry, Logged, Linear, AllPlainCounts;
    var s' := NextState(hash, s, e);
    KeepsBusy(s, s', e.call);
    KeepsCrash(s, s', e.call);
    forall i | 0 <= i < |s'.calls| ensures InFlight(hash, base, s', s'.calls[i]) {
      assert InFlight(hash, base, s, s.calls[i]);
      if i == e.call {
        var seen := s.calls[i].phase.seen;
        assert seen == s.file[..|seen|];
        assert s'.calls[i].phase.seen == s.file[..|seen| + e.size];
      }
    }
  }

  /** Nothing but the lock holder has text in flight. */
  lemma {:induction false} OnlyHolderBusy(s: State, i: nat)
    requires Locking(s) && i < |s.calls| && Holds(s.calls[i].phase)
    ensures Busy(s) ==> s.calls[i].phase.Writing? && s.calls[i].phase.left != ""
    ensures forall j :: 0 <= j < |s.calls| && j != i ==> !Holds(s.calls[j].phase)
  {
    forall j | 0 <= j < |s.calls| && j != i ensures !Holds(s.calls[j].phase) {
      assert Holds(s.calls[j].phase) <==> s.holder == Some(j);
    }
  }

  lemma {:induction false} DecideStep(hash: string -> Digest, base: string, n0: nat, s: State, e: Event)
    requires Chained(hash, base, n0) && Inv(hash, base, s) && Enabled(s, e) && e.Decide?
    ensures FileText(hash, base, NextState(hash, s, e))
  {
    hide NextReceipt, Canonical, Encode, TornEntry, Logged, Linear, PlainCounts, Chained, Busy, SomeCrash;
    var s', i := NextState(hash, s, e), e.call;
    AllWholeLines(hash, base, n0, s);
    OnlyHolderBusy(s, i);
    KeepsCrash(s, s', i);
    assert InFlight(hash, base, s, s.calls[i]);
    assert s.calls[i].phase.seen == s.file;
    if s.stub != "" {
      TornDecision(hash, base + Encode(s.log), n0 + |s.log|, s.stub, s.calls[i].args, e.now);
    } else {
      assert s.file == base + Encode(s.log);
      EmitChains(hash, s.file, n0 + |s.log|, s.calls[i].args, e.now);
    }
    forall j | 0 <= j < |s'.calls| ensures InFlight(hash, base, s', s'.calls[j]) {
      assert InFlight(hash, base, s, s.calls[j]);
    }
  }

  lemma {:induction false} TornDecision(hash: string -> Digest, file: string, n: nat, stub: string, a: Args,
                                        now: string)
    requires Chained(hash, file, n) && TornEntry(stub)
    ensures NextReceipt(hash, file + stub, a, now) == Raised(TailNotJson)
  {
    hide NextReceipt, TornEntry;
    TornTailRaises(hash, file, stub, a, now);
  }

  lemma {:induction false} WriteStep(hash: string -> Digest, base: string, s: State, e: Event)
    requires Inv(hash, base, s) && Enabled(s, e) && e.Write?
    ensures FileText(hash, base, NextState(hash, s, e))
  {
    hide NextReceipt, Canonical, Encode, TornEntry, Logged, Linear, AllPlainCounts, Busy, SomeCrash;
    var s', i := NextState(hash, s, e), e.call;
    OnlyHolderBusy(s, i);
    KeepsCrash(s, s', i);
    var phase := s.calls[i].phase;
    assert InFlight(hash, base, s, s.calls[i]);
    if e.size == |phase.left| {
      EncodeOneMore(s.log, Commit(i, phase.now, phase.receipt));
      WholeText(base, Encode(s.log), s.stub, phase.left, Canonical(phase.receipt));
      assert phase.left[..e.size] == phase.left;
      assert s'.file == base + Encode(s'.log) + "";
    } else {
      assert s.log + [] == s.log;
      BusyAt(s', i);
      PartText(base + Encode(s.log), s.stub, phase.left, e.size);
    }
    forall j | 0 <= j < |s'.calls| ensures InFlight(hash, base, s', s'.calls[j]) {
      assert InFlight(hash, base, s, s.calls[j]);
    }
  }

  lemma {:induction false} BusyAt(s: State, i: nat)
    requires i < |s.calls| && s.calls[i].phase.Writing? && s.calls[i].phase.left != ""
    ensures Busy(s)
  {
  }

  lemma {:induction false} WholeText(base: string, lines: string, stub: string, left: string, line: string)
    requires stub + left == line + "\n"
    ensures base + lines + stub + left == base + (lines + line + "\n") + ""
  {
    assert base + lines + stub + left == base + lines + (stub + left);
  }

  lemma {:induction false} PartText(lines: string, stub: string, left: string, size: nat)
    requires size <= |left|
    ensures lines + stub + left[..size] == lines + (stub + left[..size])
    ensures (stub + left[..size]) + left[size..] == stub + left
  {
  }

  lemma {:induction false} CrashStep(hash: string -> Digest, base: string, n0: nat, s: State, e: Event)
    requires Chained(hash, base, n0) && Inv(hash, base, s) && Enabled(s, e) && e.Crash?
    ensures FileText(hash, base, NextState(hash, s, e))
  {
    hide NextReceipt, Canonical, Encode, TornEntry, Logged, Linear, AllPlainCounts, Chained;
    var s', i := NextState(hash, s, e), e.call;
    var phase := s.calls[i].phase;
    assert s'.calls[i].phase.Crashed?;
    assert SomeCrash(s');
    if phase.Writing? && phase.left != "" {
      StubIsTorn(hash, base, n0, s, i);
    } else {
      KeepsBusy(s, s', i);
    }
    forall j | 0 <= j < |s'.calls| ensures InFlight(hash, base, s', s'.calls[j]) {
      assert InFlight(hash, base, s, s.calls[j]);
    }
  }

  lemma {:induction false} KeepsInv(hash: string -> Digest, base: string, n0: nat, s: State, e: Event)
    requires Chained(hash, base, n0) && Inv(hash, base, s) && Enabled(s, e)
    ensures Inv(hash, base, NextState(hash, s, e))
  {
    hide NextReceipt, Canonical, Encode, TornEntry, Chained, PlainCounts, FileText, Linear, Logged, Locking;
    KeepsLocking(hash, s, e);
    KeepsLogged(hash, s, e);
    KeepsLinear(hash, base, s, e);
    KeepsFileText(hash, base, n0, s, e);
  }

  lemma {:induction false} InitialInv(hash: string -> Digest, base: string, s: State)
    requires Initial(base, s)
    ensures Inv(hash, base, s)
  {
    hide NextReceipt, Canonical, PlainCounts;
    assert base + Encode([]) + "" == base;
  }

  /** Every state of every run satisfies the invariant. */
  lemma {:induction false} RunInv(hash: string -> Digest, base: string, n0: nat, states: seq<State>,
                                  events: seq<Event>, k: nat)
    requires Chained(hash, base, n0) && IsRun(hash, states, events) && Initial(base, states[0]) && k < |states|
    ensures Inv(hash, base, states[k])
  {
    hide Initial, Inv, Chained, NextState;
    if k == 0 {
      InitialInv(hash, base, states[0]);
    } else {
      RunInv(hash, base, n0, states, events, k - 1);
      KeepsInv(hash, base, n0, states[k - 1], events[k - 1]);
    }
  }
}
