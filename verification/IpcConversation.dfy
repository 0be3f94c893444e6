/** Every interleaving of the runner with either adapter: what can be under way, no deadlock,
  termination, and the result. */
module IpcConversation {
  import opened Sequences
  import opened Json
  import opened Utf8
  import opened Ndjson
  import opened IpcRunner
  import opened IpcRunnerLaws
  import opened IpcAdapters
  import opened IpcMessages
  import opened IpcSystem

  // ---------- the seven phases ----------

  /** The messages on their way to the adapter in phase `n`. */
  function Down(setup: Setup, n: nat): seq<Value> {
    match n
    case 0 => [HelloOf(setup)]
    case 3 => [AckMessage(setup), Asked(setup)]
    case 4 => [Asked(setup)]
    case _ => []
  }

  /** The messages on their way to the runner. */
  function Up(setup: Setup, n: nat): seq<Value>
    requires setup.args.Obj?
  {
    match n
    case 1 => [HelloAckOf(setup), CapabilitiesMessage(setup)]
    case 2 => [CapabilitiesMessage(setup)]
    case 5 => [Answered(setup)]
    case _ => []
  }

  function StageIn(setup: Setup, n: nat): Stage
    requires setup.args.Obj?
  {
    if n < 3 then Shaking else if n < 6 then Invoking(0) else Ended(Expected(setup))
  }

  function StateIn(setup: Setup, n: nat): State {
    if n == 0 then START else if n < 5 then Negotiated(setup) else Negotiated(setup).(count := 3)
  }

  ghost predicate Inv(setup: Setup, s: System, n: nat)
    requires setup.args.Obj?
  {
    && n <= 6
    && s.runner.stage == StageIn(setup, n) && s.adapter.state == StateIn(setup, n) && s.adapter.stop == None
    && s.adapter.inbox + s.down + s.runner.outbox == Frames(Down(setup, n))
    && s.runner.inbox + s.up + s.adapter.outbox == Frames(Up(setup, n))
  }

  lemma {:induction false} AllPlain(setup: Setup, n: nat)
    requires Sound(setup)
    ensures forall i :: 0 <= i < |Down(setup, n)| ==> Plain(Down(setup, n)[i])
    ensures forall i :: 0 <= i < |Up(setup, n)| ==> Plain(Up(setup, n)[i])
  {
    hide Plain, HelloOf, AckMessage, Asked, HelloAckOf, CapabilitiesMessage, Answered;
    PlainHello(setup);
    PlainAck(setup);
    PlainAsked(setup);
    PlainCapabilities(setup);
    PlainAnswered(setup);
  }

  // ---------- bytes in a pipe ----------

  /** The first complete line of an inbox is the first frame on its way. */
  lemma {:induction false} FirstFrame(inbox: seq<Byte>, rest: seq<Byte>, msgs: seq<Value>)
    requires inbox + rest == Frames(msgs) && NEWLINE in inbox && forall i :: 0 <= i < |msgs| ==> Plain(msgs[i])
    ensures msgs != [] && FirstLine(inbox) == Frame(msgs[0])
    ensures inbox[|Frame(msgs[0])|..] + rest == Frames(msgs[1..])
  {
    hide Plain, Frame, FirstLine;
    if msgs != [] {
      FrameNewline(msgs[0]);
      var tail := LineIsPrefix(inbox, rest, Frame(msgs[0]), Frames(msgs[1..]));
      FirstLineAppend(Frame(msgs[0]), tail);
    }
  }

  /** An inbox with a line end holds the whole first line of what is on its way. */
  lemma {:induction false} LineIsPrefix(inbox: seq<Byte>, rest: seq<Byte>, line: seq<Byte>,
                                        more: seq<Byte>) returns (tail: seq<Byte>)
    requires inbox + rest == line + more && NEWLINE in inbox
    requires line != [] && forall i :: 0 <= i < |line| - 1 ==> line[i] != NEWLINE
    ensures inbox == line + tail && inbox[|line|..] + rest == more && tail == inbox[|line|..]
  {
    var k :| 0 <= k < |inbox| && inbox[k] == NEWLINE;
    assert (inbox + rest)[k] == NEWLINE;
    assert forall i :: 0 <= i < |line| - 1 ==> (inbox + rest)[i] == line[i];
    tail := inbox[|line|..];
    assert inbox[..|line|] == (inbox + rest)[..|line|] == line;
    assert inbox == inbox[..|line|] + tail;
    assert tail + rest == (inbox + rest)[|line|..];
  }

  /** A frame has one line end, its last byte. */
  lemma {:induction false} FrameNewline(v: Value)
    requires Plain(v)
    ensures Frame(v) != [] && Complete(Frame(v)) && FirstLine(Frame(v)) == Frame(v)
    ensures forall i :: 0 <= i < |Frame(v)| - 1 ==> Frame(v)[i] != NEWLINE
  {
    hide Encode, LineOf, Plain, FirstLine, ReadLine, ByteEnd;
    FrameReads(v);
    LineText(v);
    FrameBytes(LineOf(v));
    NewlineLast(Encode(LineOf(v)));
  }

  lemma {:induction false} NewlineLast(bytes: seq<Byte>)
    requires NEWLINE !in bytes
    ensures forall i :: 0 <= i < |bytes| ==> (bytes + [NEWLINE])[i] != NEWLINE
  {
    assert forall i :: 0 <= i < |bytes| ==> (bytes + [NEWLINE])[i] == bytes[i] && bytes[i] in bytes;
  }

  /** Nothing is on its way: all three places are empty. */
  lemma {:induction false} NothingThere(a: seq<Byte>, b: seq<Byte>, c: seq<Byte>)
    requires a + b + c == Frames([])
    ensures a == [] && b == [] && c == []
  {
    assert |a + b + c| == 0;
  }

  // ---------- every step keeps the phase or ends it ----------

  /** Moving bytes along changes nothing about what is on its way. */
  lemma {:induction false} MoveKeeps(setup: Setup, s: System, e: Event, n: nat)
    requires Sound(setup) && Inv(setup, s, n) && Enabled(setup, s, e) && !e.RunnerHandles? && !e.AdapterHandles?
    ensures Inv(setup, NextSystem(setup, s, e), n)
  {
    hide Down, Up, StageIn, StateIn, Frames, RunnerHandled, AdapterHandled;
    match e {
      case RunnerWrites(k) => Moved(s.adapter.inbox + s.down, s.runner.outbox, k);
      case RunnerReads(k) => Moved(s.runner.inbox, s.up, k);
      case AdapterWrites(k) => Moved(s.runner.inbox + s.up, s.adapter.outbox, k);
      case AdapterReads(k) => Moved(s.adapter.inbox, s.down, k);
      case _ =>
    }
    var s' := NextSystem(setup, s, e);
    assert s'.adapter.inbox + s'.down + s'.runner.outbox == s.adapter.inbox + s.down + s.runner.outbox;
    assert s'.runner.inbox + s'.up + s'.adapter.outbox == s.runner.inbox + s.up + s.adapter.outbox;
  }

  lemma {:induction false} Moved(a: seq<Byte>, b: seq<Byte>, k: nat)
    requires k <= |b|
    ensures (a + b[..k]) + b[k..] == a + b
  {
  }

  lemma {:induction false} AdapterTurns(setup: Setup, n: nat)
    requires Sound(setup) && n <= 6 && Down(setup, n) != []
    ensures var turn := AdapterOnLine(setup, StateIn(setup, n), Frame(Down(setup, n)[0]));
            && turn.state == StateIn(setup, n + 1) && turn.stop == None
            && Down(setup, n + 1) == Down(setup, n)[1..] && Up(setup, n + 1) == turn.sent && Up(setup, n) == []
            && n + 1 <= 6 && StageIn(setup, n + 1) == StageIn(setup, n)
  {
    hide HelloOf, AckMessage, Asked, HelloAckOf, CapabilitiesMessage, Answered, AdapterOnLine, Frame, Negotiated,
         Expected;
    AdapterTakesHello(setup);
    AdapterTakesAck(setup);
    AdapterTakesInvoke(setup);
  }

  lemma {:induction false} RunnerTurns(setup: Setup, n: nat)
    requires Sound(setup) && n <= 6 && Up(setup, n) != []
    ensures var (stage, sent) := RunnerOnLine(setup, StageIn(setup, n), Frame(Up(setup, n)[0]));
            && stage == StageIn(setup, n + 1)
            && Up(setup, n + 1) == Up(setup, n)[1..] && Down(setup, n + 1) == sent && Down(setup, n) == []
            && n + 1 <= 6 && StateIn(setup, n + 1) == StateIn(setup, n)
  {
    hide HelloOf, AckMessage, Asked, HelloAckOf, CapabilitiesMessage, Answered, RunnerOnLine, Frame, Negotiated,
         Expected;
    RunnerTakesHelloAck(setup);
    RunnerTakesCapabilities(setup);
    RunnerTakesAnswer(setup);
  }

  lemma {:induction false} AdapterHandlesKeeps(setup: Setup, s: System, n: nat)
    requires Sound(setup) && Inv(setup, s, n) && Enabled(setup, s, AdapterHandles)
    ensures Inv(setup, NextSystem(setup, s, AdapterHandles), n + 1)
  {
    hide Up, Down, StageIn, StateIn, Frame, AdapterOnLine, FirstLine, Plain;
    AllPlain(setup, n);
    Gather(s.adapter.inbox, s.down, s.runner.outbox);
    FirstFrame(s.adapter.inbox, s.down + s.runner.outbox, Down(setup, n));
    AdapterTurns(setup, n);
    NothingThere(s.runner.inbox, s.up, s.adapter.outbox);
    hide Frames;
    Gather(s.adapter.inbox[|Frame(Down(setup, n)[0])|..], s.down, s.runner.outbox);
    assert forall b: seq<Byte> :: [] + [] + b == b;
  }

  lemma {:induction false} RunnerHandlesKeeps(setup: Setup, s: System, n: nat)
    requires Sound(setup) && Inv(setup, s, n) && Enabled(setup, s, RunnerHandles)
    ensures Inv(setup, NextSystem(setup, s, RunnerHandles), n + 1)
  {
    hide Up, Down, StageIn, StateIn, Frame, RunnerOnLine, FirstLine, Plain;
    AllPlain(setup, n);
    Gather(s.runner.inbox, s.up, s.adapter.outbox);
    FirstFrame(s.runner.inbox, s.up + s.adapter.outbox, Up(setup, n));
    RunnerTurns(setup, n);
    NothingThere(s.adapter.inbox, s.down, s.runner.outbox);
    hide Frames;
    Gather(s.runner.inbox[|Frame(Up(setup, n)[0])|..], s.up, s.adapter.outbox);
    assert forall b: seq<Byte> :: [] + [] + b == b;
  }

  lemma {:induction false} Gather(a: seq<Byte>, b: seq<Byte>, c: seq<Byte>)
    ensures a + b + c == a + (b + c)
  {
  }

  /** The phase after a step. */
  function After(n: nat, e: Event): nat { if e.RunnerHandles? || e.AdapterHandles? then n + 1 else n }

  lemma {:induction false} KeepsInv(setup: Setup, s: System, e: Event, n: nat)
    requires Sound(setup) && Inv(setup, s, n) && Enabled(setup, s, e)
    ensures Inv(setup, NextSystem(setup, s, e), After(n, e))
  {
    hide Inv, Enabled, NextSystem, Sound;
    match e
    case RunnerHandles => RunnerHandlesKeeps(setup, s, n);
    case AdapterHandles => AdapterHandlesKeeps(setup, s, n);
    case _ => MoveKeeps(setup, s, e, n);
  }

  lemma {:induction false} StartInv(setup: Setup)
    requires setup.args.Obj?
    ensures Inv(setup, Start(setup), 0)
  {
    hide HelloOf, Frame;
    var f := Frame(HelloOf(setup));
    FramesOne(HelloOf(setup));
    assert [] + [] + f == f;
    assert Frames([]) == [] && [] + [] + [] == Frames([]);
  }

  lemma {:induction false} RunInv(setup: Setup, states: seq<System>, events: seq<Event>, k: nat) returns (n: nat)
    requires Sound(setup) && IsRun(setup, states, events) && states[0] == Start(setup) && k < |states|
    ensures Inv(setup, states[k], n)
  {
    hide Inv, Enabled, NextSystem, Sound, Start;
    if k == 0 {
      SoundArgs(setup);
      StartInv(setup);
      n := 0;
    } else {
      n := RunInv(setup, states, events, k - 1);
      KeepsInv(setup, states[k - 1], events[k - 1], n);
      n := After(n, events[k - 1]);
    }
  }

  lemma {:induction false} SoundArgs(setup: Setup)
    requires Sound(setup)
    ensures setup.args.Obj?
  {
  }

  // ---------- the result ----------

  /** Whatever the interleaving, a runner that is done has the adapter's function of the arguments. */
  lemma {:induction false} ResultIsAdapters(setup: Setup, states: seq<System>, events: seq<Event>)
    requires Sound(setup) && IsRun(setup, states, events) && states[0] == Start(setup)
    ensures var stage := states[|events|].runner.stage; stage.Ended? ==> stage.outcome == Expected(setup)
  {
    hide IsRun, Start, Expected;
    RunHasLength(setup, states, events);
    var n := RunInv(setup, states, events, |events|);
  }

  lemma {:induction false} RunHasLength(setup: Setup, states: seq<System>, events: seq<Event>)
    requires IsRun(setup, states, events)
    ensures |states| == |events| + 1
  {
  }

  function Succeeded(data: Value): Outcome { Success(Obj([Field("ok", Bool(true)), Field("data", data)])) }

  /** What a wrapper operation ends with: a result exactly when there is a command, it could be run and
    its exit code is 0, and then with the report of the run. */
  ghost predicate WrapperEnds(world: World, command: Command, outcome: Outcome) {
    if command.Command? && world.process(command.cmd).Ran? && world.process(command.cmd).exitCode == 0 then
      outcome.Success? &&
      exists data :: outcome == Succeeded(data) && Reports(world, command, world.process(command.cmd), data)
    else outcome == Failed(AdapterError)
  }

  lemma {:induction false} WrappedEnds(world: World, command: Command, code: string, failure: string)
    ensures WrapperEnds(world, command,
                        match Wrapped(world, command, code, failure)
                        case Data(data) => Succeeded(data)
                        case Refusal(_, _, _) => Failed(AdapterError))
  {
    hide WrapperData, Reports;
    if command.Command? && world.process(command.cmd).Ran? {
      WrapperReports(world, command, world.process(command.cmd));
    }
  }

  /** `text.caps` yields the upper-cased text and refuses what is no text, `remote.echo` yields the
    arguments, the wrapper operations what their commands come to; there are no other operations. */
  lemma {:induction false} ExpectedIs(setup: Setup)
    requires setup.args.Obj?
    ensures setup.kind.Caps? ==>
              Expected(setup) ==
              if setup.op != "text.caps" then Failed(AdapterError)
              else
                match Find(setup.args.fields, "text")
                case Some(Str(text)) => Succeeded(Obj([Field("text", Str(setup.world.upper(text)))]))
                case _ => Failed(AdapterError)
    ensures setup.kind.Bridge? && setup.op == "remote.echo" ==>
              Expected(setup) ==
              Succeeded(Obj([Field("skeletonMode", Bool(true)), Field("transport", Str("tritrpc")),
                             Field("method", Str("echo")), Field("args", setup.args)]))
    ensures setup.kind.Bridge? && setup.op == "tritrpc.fixture.verify" ==>
              WrapperEnds(setup.world, VerifyCommand(setup.world, setup.args), Expected(setup))
    ensures setup.kind.Bridge? && setup.op == "tritrpc.frame.pack" ==>
              WrapperEnds(setup.world, PackCommand(setup.world, setup.args), Expected(setup))
    ensures setup.kind.Bridge? && setup.op !in ["remote.echo", "tritrpc.fixture.verify", "tritrpc.frame.pack"] ==>
              Expected(setup) == Failed(AdapterError)
  {
    hide Find, VerifyCommand, PackCommand, Wrapped, WrapperEnds;
    WrappedEnds(setup.world, VerifyCommand(setup.world, setup.args), "TRITRPC_FIXTURE_VERIFY_FAILED",
                "fixture verify wrapper failed");
    WrappedEnds(setup.world, PackCommand(setup.world, setup.args), "TRITRPC_FRAME_PACK_FAILED",
                "frame pack wrapper failed");
    assert |"remote.echo"| == 11 && |"tritrpc.fixture.verify"| == 22 && |"tritrpc.frame.pack"| == 18;
  }

  // ---------- progress and termination ----------

  /** Something is on its way to a process that listens: it can be moved on or handled. */
  lemma {:induction false} CanMove(inbox: seq<Byte>, pipe: seq<Byte>, outbox: seq<Byte>, msgs: seq<Value>,
                                   capacity: nat)
    requires inbox + pipe + outbox == Frames(msgs) && msgs != [] && capacity >= 1
    requires forall i :: 0 <= i < |msgs| ==> Plain(msgs[i])
    ensures NEWLINE in inbox || |pipe| > 0 || (|outbox| > 0 && |pipe| + 1 <= capacity)
  {
    hide Plain, Frame;
    if pipe == [] && outbox == [] {
      FrameNewline(msgs[0]);
      assert inbox + pipe + outbox == inbox;
      var f := Frame(msgs[0]);
      assert inbox[|f| - 1] == f[|f| - 1];
    }
  }

  /** No deadlock: until the runner is done, some process can take a step. */
  lemma {:induction false} NoDeadlock(setup: Setup, s: System, n: nat) returns (e: Event)
    requires Sound(setup) && Inv(setup, s, n) && !s.runner.stage.Ended?
    ensures Enabled(setup, s, e)
  {
    hide Plain, HelloOf, AckMessage, Asked, HelloAckOf, CapabilitiesMessage, Answered, Frame, Expected, StateIn;
    AllPlain(setup, n);
    if Down(setup, n) != [] {
      CanMove(s.adapter.inbox, s.down, s.runner.outbox, Down(setup, n), setup.capacity);
      NothingThere(s.runner.inbox, s.up, s.adapter.outbox);
      e := if NEWLINE in s.adapter.inbox then AdapterHandles
           else if s.down != [] then AdapterReads(1) else RunnerWrites(1);
    } else {
      CanMove(s.runner.inbox, s.up, s.adapter.outbox, Up(setup, n), setup.capacity);
      NothingThere(s.adapter.inbox, s.down, s.runner.outbox);
      e := if NEWLINE in s.runner.inbox then RunnerHandles
           else if s.up != [] then RunnerReads(1) else AdapterWrites(1);
    }
  }

  /** The bytes that still have to move, those not yet in a pipe counting twice. */
  function Load(s: System): nat {
    2 * (|s.runner.outbox| + |s.adapter.outbox|) + |s.down| + |s.up|
  }

  /** Every step ends a phase or moves bytes on, so every run is finite. */
  lemma {:induction false} EveryStepCounts(setup: Setup, s: System, e: Event, n: nat)
    requires Sound(setup) && Inv(setup, s, n) && Enabled(setup, s, e)
    ensures n <= 6 && (After(n, e) == n ==> Load(NextSystem(setup, s, e)) < Load(s))
    ensures After(n, e) <= 6
  {
    hide Inv, Sound, RunnerHandled, AdapterHandled;
    KeepsInv(setup, s, e, n);
    SoundArgs(setup);
    InvBound(setup, s, n);
    InvBound(setup, NextSystem(setup, s, e), After(n, e));
  }

  lemma {:induction false} InvBound(setup: Setup, s: System, n: nat)
    requires setup.args.Obj? && Inv(setup, s, n)
    ensures n <= 6 && (s.runner.stage.Ended? <==> n == 6)
  {
    hide Frames, Down, Up, StateIn;
  }

  /** From every reachable state the conversation can be brought to its end. */
  lemma {:induction false} EveryRunCanEnd(setup: Setup, s: System, n: nat) returns (states: seq<System>,
                                          events: seq<Event>)
    requires Sound(setup) && Inv(setup, s, n)
    ensures IsRun(setup, states, events) && states[0] == s
    ensures states[|events|].runner.stage == Ended(Expected(setup))
    decreases 6 - n, Load(s)
  {
    hide Inv, Sound, NextSystem, Enabled, Load;
    SoundArgs(setup);
    InvBound(setup, s, n);
    if s.runner.stage.Ended? {
      states, events := [s], [];
      EndedAsExpected(setup, s, n);
    } else {
      var e := NoDeadlock(setup, s, n);
      EveryStepCounts(setup, s, e, n);
      KeepsInv(setup, s, e, n);
      states, events := EveryRunCanEnd(setup, NextSystem(setup, s, e), After(n, e));
      states, events := [s] + states, [e] + events;
    }
  }

  lemma {:induction false} EndedAsExpected(setup: Setup, s: System, n: nat)
    requires setup.args.Obj? && Inv(setup, s, n) && s.runner.stage.Ended?
    ensures s.runner.stage == Ended(Expected(setup))
  {
    hide Frames, Down, Up, StateIn, Expected;
  }

  /** In particular no run gets stuck before the runner is done. */
  lemma {:induction false} RunNeverStuck(setup: Setup, states: seq<System>, events: seq<Event>) returns (e: Event)
    requires Sound(setup) && IsRun(setup, states, events) && states[0] == Start(setup)
    requires !states[|events|].runner.stage.Ended?
    ensures Enabled(setup, states[|events|], e)
  {
    hide IsRun, Start, Inv, Enabled, Sound;
    RunHasLength(setup, states, events);
    SoundArgs(setup);
    var n := RunInv(setup, states, events, |events|);
    e := NoDeadlock(setup, states[|events|], n);
  }

  // ---------- the runner's loops are this machine ----------

  function RunnerOver(setup: Setup, stage: Stage, lines: seq<seq<Byte>>): (Stage, seq<Value>)
    decreases |lines|
  {
    if lines == [] then (stage, [])
    else
      var (next, sent) := RunnerOnLine(setup, stage, lines[0]);
      var (last, more) := RunnerOver(setup, next, lines[1..]);
      (last, sent + more)
  }

  /** What the runner reports when its input is over in this stage. */
  function OutcomeOf(stage: Stage): Outcome {
    match stage
    case Shaking => Failed(NoCapabilities)
    case Invoking(_) => Failed(AdapterEnded)
    case Ended(outcome) => outcome
  }

  lemma {:induction false} OverEnded(setup: Setup, outcome: Outcome, lines: seq<seq<Byte>>)
    ensures RunnerOver(setup, Ended(outcome), lines) == (Ended(outcome), [])
  {
    hide ReadLine;
    if lines != [] {
      OverEnded(setup, outcome, lines[1..]);
      var (next, sent) := RunnerOnLine(setup, Ended(outcome), lines[0]);
      assert next == Ended(outcome) && sent == [];
      var none: seq<Value> := [];
      assert none + none == none;
    }
  }

  /** One line, then the rest. */
  lemma {:induction false} OverFirst(setup: Setup, stage: Stage, input: seq<Byte>)
    requires input != []
    ensures var raw := FirstLine(input);
            var (next, sent) := RunnerOnLine(setup, stage, raw);
            var (last, more) := RunnerOver(setup, next, RawLines(input[|raw|..]));
            RunnerOver(setup, stage, RawLines(input)) == (last, sent + more)
  {
    CutRaw(input);
    hide RawLines, FirstLine, RunnerOnLine;
    var raw := FirstLine(input);
    assert ([raw] + RawLines(input[|raw|..]))[1..] == RawLines(input[|raw|..]);
  }

  lemma {:induction false} InvokeIsSteps(setup: Setup, input: seq<Byte>, k: nat)
    ensures var run := InvokeFrom(input, setup.request.id, setup.late, k);
            var (stage, sent) := RunnerOver(setup, Invoking(k), RawLines(input));
            run.outcome == OutcomeOf(stage) && sent == []
    decreases |input|
  {
    hide PullNext, RawLines, FirstLine, InvokeOn, ReadLine;
    if input == [] {
      NothingPulled();
    } else {
      var raw := FirstLine(input);
      var rest := input[|raw|..];
      PullFirst(input);
      OverFirst(setup, Invoking(k), input);
      FirstLineFacts(input);
      match ReadLine(raw)
      case Message(_, msg) =>
        if InvokeOn(msg, setup.request.id, setup.late(k)).None? {
          InvokeIsSteps(setup, rest, k + 1);
        } else {
          OverEnded(setup, InvokeOn(msg, setup.request.id, setup.late(k)).value, RawLines(rest));
        }
      case _ =>
        InvokeIsSteps(setup, rest, k);
    }
  }

  lemma {:induction false} NothingPulled()
    ensures PullNext([]) == Pull(None, [], []) && RawLines([]) == []
  {
  }

  lemma {:induction false} HandshakeIsSteps(setup: Setup, input: seq<Byte>)
    ensures var run := HandshakeFrom(input, [setup.op], setup.ack);
            var (stage, sent) := RunnerOver(setup, Shaking, RawLines(input));
            if run.outcome.Failed? then run.outcome == OutcomeOf(stage) && run.sent == sent
            else
              var (last, more) := RunnerOver(setup, Invoking(0), RawLines(run.rest));
              stage == last && sent == run.sent + [Asked(setup)] + more
    decreases |input|
  {
    hide PullNext, RawLines, FirstLine, HandshakeOn, ReadLine, CapabilitiesAck, Asked, InvokeMessage;
    if input == [] {
      NothingPulled();
    } else {
      var raw := FirstLine(input);
      var rest := input[|raw|..];
      PullFirst(input);
      OverFirst(setup, Shaking, input);
      FirstLineFacts(input);
      match ReadLine(raw)
      case Message(_, msg) => HandshakeMessage(setup, input, msg);
      case _ =>
        HandshakeIsSteps(setup, rest);
        var (stage, sent) := RunnerOver(setup, Shaking, RawLines(rest));
        assert [] + sent == sent;
    }
  }

  lemma {:induction false} HandshakeMessage(setup: Setup, input: seq<Byte>, msg: Value)
    requires input != [] && ReadLine(FirstLine(input)).Message? && ReadLine(FirstLine(input)).msg == msg
    ensures var run := HandshakeFrom(input, [setup.op], setup.ack);
            var (stage, sent) := RunnerOver(setup, Shaking, RawLines(input));
            if run.outcome.Failed? then run.outcome == OutcomeOf(stage) && run.sent == sent
            else
              var (last, more) := RunnerOver(setup, Invoking(0), RawLines(run.rest));
              stage == last && sent == run.sent + [Asked(setup)] + more
    decreases |input|, 0
  {
    hide PullNext, RawLines, FirstLine, HandshakeOn, ReadLine, CapabilitiesAck, InvokeMessage;
    var rest := input[|FirstLine(input)|..];
    PullFirst(input);
    OverFirst(setup, Shaking, input);
    FirstLineFacts(input);
    match HandshakeOn(msg)
    case None =>
      HandshakeIsSteps(setup, rest);
      var (stage, sent) := RunnerOver(setup, Shaking, RawLines(rest));
      assert [] + sent == sent;
    case Some(Failed(why)) => OverEnded(setup, Failed(why), RawLines(rest));
    case Some(Success(payload)) =>
      OverEnded(setup, Failed(NoCapabilities), RawLines(rest));
      var ack := CapabilitiesAck(setup.ack, [setup.op], IdOf(msg));
      assert [ack] + [Asked(setup)] == [ack, Asked(setup)];
      assert [ack] + [] == [ack];
  }

  /** `handshake` followed by `invoke`, on any input, is the line-by-line machine run to its end. */
  lemma {:induction false} LoopsAreSteps(setup: Setup, input: seq<Byte>)
    ensures var run := Session(input, [setup.op], setup.pid, setup.hello, setup.ack,
                               setup.request, setup.op, setup.args, setup.timeoutMs, setup.late);
            var (stage, sent) := RunnerOver(setup, Shaking, RawLines(input));
            run.outcome == OutcomeOf(stage) && run.sent == [HelloOf(setup)] + sent
  {
    hide PullNext, RawLines, HandshakeFrom, InvokeFrom, RunnerOver, Hello, InvokeMessage, OutcomeOf;
    HandshakeIsSteps(setup, input);
    var shake := HandshakeFrom(input, [setup.op], setup.ack);
    if shake.outcome.Success? {
      InvokeIsSteps(setup, shake.rest, 0);
      InvokeSendsNothing(shake.rest, setup.request.id, setup.late, 0);
      assert shake.sent + [Asked(setup)] + [] == shake.sent + [Asked(setup)];
      Associative([HelloOf(setup)], shake.sent, [Asked(setup)]);
      assert [Asked(setup)] + [] == [Asked(setup)];
    }
  }

  lemma {:induction false} InvokeSendsNothing(input: seq<Byte>, id: string, late: nat -> bool, k: nat)
    ensures InvokeFrom(input, id, late, k).sent == []
    decreases |input|
  {
    hide PullNext, InvokeOn;
    PullShortens(input);
    var p := PullNext(input);
    if p.msg.Some? { InvokeSendsNothing(p.rest, id, late, k + 1); }
  }
}
