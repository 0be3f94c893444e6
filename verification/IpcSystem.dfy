/** The runner and an adapter joined by two bounded byte pipes, under every interleaving.

  A process that has bytes to write does nothing else until they are all in the pipe; otherwise it
  handles the next complete line it has, and reads more bytes when it has none. */
module IpcSystem {
  import opened Json
  import opened Utf8
  import opened Ndjson
  import opened IpcRunner
  import opened IpcAdapters
  import opened IpcAdapterLaws

  /** One conversation: what the runner was started with, and the adapter it talks to. */
  datatype Setup = Setup(
    pid: nat, hello: Stamp, ack: Stamp, request: Stamp, op: string, args: Value, timeoutMs: int, late: nat -> bool,
    kind: Kind, world: World, capacity: nat)

  // ---------- the runner, line by line ----------

  /** Where the runner is: in `handshake`, in `invoke` after `seen` messages, or done. */
  datatype Stage = Shaking | Invoking(seen: nat) | Ended(outcome: Outcome)

  function RunnerOn(setup: Setup, stage: Stage, msg: Value): (Stage, seq<Value>) {
    match stage
    case Shaking =>
      (match HandshakeOn(msg)
       case None => (Shaking, [])
       case Some(Failed(why)) => (Ended(Failed(why)), [])
       case Some(Success(payload)) =>
         var ack := CapabilitiesAck(setup.ack, [setup.op], IdOf(msg));
         if payload.Null? then (Ended(Failed(NoCapabilities)), [ack])
         else (Invoking(0), [ack, InvokeMessage(setup.request, setup.op, setup.args, setup.timeoutMs)]))
    case Invoking(seen) =>
      (match InvokeOn(msg, setup.request.id, setup.late(seen))
       case None => (Invoking(seen + 1), [])
       case Some(outcome) => (Ended(outcome), []))
    case Ended(_) => (stage, [])
  }

  function RunnerOnLine(setup: Setup, stage: Stage, raw: seq<Byte>): (Stage, seq<Value>) {
    match ReadLine(raw)
    case Message(_, msg) => RunnerOn(setup, stage, msg)
    case _ => (stage, [])
  }

  // ---------- the two processes and the pipes ----------

  /** `inbox` holds bytes read but not yet handled, `outbox` bytes still to be written. */
  datatype Runner = Runner(stage: Stage, inbox: seq<Byte>, outbox: seq<Byte>)

  datatype Adapter = Adapter(state: State, stop: Option<Stop>, inbox: seq<Byte>, outbox: seq<Byte>)

  datatype System = System(runner: Runner, adapter: Adapter, down: seq<Byte>, up: seq<Byte>)

  datatype Event =
    | RunnerWrites(n: nat) | RunnerReads(n: nat) | RunnerHandles
    | AdapterWrites(n: nat) | AdapterReads(n: nat) | AdapterHandles

  function HelloOf(setup: Setup): Value { Hello(setup.hello, [setup.op], setup.pid) }

  function Start(setup: Setup): System {
    System(Runner(Shaking, [], Frame(HelloOf(setup))), Adapter(START, None, [], []), [], [])
  }

  /** The runner reads on: nothing left to write, and not done. */
  predicate RunnerListens(s: System) { s.runner.outbox == [] && !s.runner.stage.Ended? }

  predicate AdapterListens(s: System) { s.adapter.outbox == [] && s.adapter.stop.None? }

  predicate Enabled(setup: Setup, s: System, e: Event) {
    match e
    case RunnerWrites(n) => 0 < n <= |s.runner.outbox| && |s.down| + n <= setup.capacity
    case RunnerReads(n) => RunnerListens(s) && NEWLINE !in s.runner.inbox && 0 < n <= |s.up|
    case RunnerHandles => RunnerListens(s) && NEWLINE in s.runner.inbox
    case AdapterWrites(n) => 0 < n <= |s.adapter.outbox| && |s.up| + n <= setup.capacity
    case AdapterReads(n) => AdapterListens(s) && NEWLINE !in s.adapter.inbox && 0 < n <= |s.down|
    case AdapterHandles => AdapterListens(s) && NEWLINE in s.adapter.inbox
  }

  /** What an adapter does with one line of bytes; input that is not UTF-8 ends it. */
  function AdapterOnLine(setup: Setup, st: State, raw: seq<Byte>): Turn {
    match TextLines(raw)
    case None => Turn(st, [], Some(Crash))
    case Some(lines) => RunFrom(setup.world, setup.kind, st, lines)
  }

  function RunnerHandled(setup: Setup, r: Runner): Runner {
    var raw := FirstLine(r.inbox);
    var (stage, sent) := RunnerOnLine(setup, r.stage, raw);
    Runner(stage, r.inbox[|raw|..], Frames(sent))
  }

  function AdapterHandled(setup: Setup, a: Adapter): Adapter {
    var raw := FirstLine(a.inbox);
    var turn := AdapterOnLine(setup, a.state, raw);
    Adapter(turn.state, turn.stop, a.inbox[|raw|..], Frames(turn.sent))
  }

  function NextSystem(setup: Setup, s: System, e: Event): System
    requires Enabled(setup, s, e)
  {
    match e
    case RunnerWrites(n) => s.(runner := s.runner.(outbox := s.runner.outbox[n..]),
      down := s.down + s.runner.outbox[..n])
    case RunnerReads(n) => s.(runner := s.runner.(inbox := s.runner.inbox + s.up[..n]), up := s.up[n..])
    case RunnerHandles => s.(runner := RunnerHandled(setup, s.runner))
    case AdapterWrites(n) => s.(adapter := s.adapter.(outbox := s.adapter.outbox[n..]),
      up := s.up + s.adapter.outbox[..n])
    case AdapterReads(n) => s.(adapter := s.adapter.(inbox := s.adapter.inbox + s.down[..n]), down := s.down[n..])
    case AdapterHandles => s.(adapter := AdapterHandled(setup, s.adapter))
  }

  /** Bytes stay in order and none is lost: what is on its way to the adapter, and to the runner, from
    the far end of the pipe to the near one. */
  function ToAdapter(s: System): seq<Byte> { s.adapter.inbox + s.down + s.runner.outbox }

  function ToRunner(s: System): seq<Byte> { s.runner.inbox + s.up + s.adapter.outbox }

  /** A process that still has something to write does nothing else, and one that is done handles
    nothing more. Writing and reading keep every byte and the order, and fill no pipe above its
    capacity; only handling a line takes bytes out, that line, and puts bytes in, at the end. */
  lemma {:induction false} PipesKeep(setup: Setup, s: System, e: Event)
    requires Enabled(setup, s, e)
    ensures e.RunnerReads? || e.RunnerHandles? ==> s.runner.outbox == [] && !s.runner.stage.Ended?
    ensures e.AdapterReads? || e.AdapterHandles? ==> s.adapter.outbox == [] && s.adapter.stop == None
    ensures var t := NextSystem(setup, s, e);
            && (|s.down| <= setup.capacity ==> |t.down| <= setup.capacity)
            && (|s.up| <= setup.capacity ==> |t.up| <= setup.capacity)
            && (match e
                case RunnerHandles =>
                  && ToAdapter(t) == ToAdapter(s) + t.runner.outbox
                  && ToRunner(s) == FirstLine(s.runner.inbox) + ToRunner(t)
                case AdapterHandles =>
                  && ToRunner(t) == ToRunner(s) + t.adapter.outbox
                  && ToAdapter(s) == FirstLine(s.adapter.inbox) + ToAdapter(t)
                case _ => ToAdapter(t) == ToAdapter(s) && ToRunner(t) == ToRunner(s))
  {
    hide RunnerOnLine, AdapterOnLine, FirstLine, Frames;
    var t := NextSystem(setup, s, e);
    match e
    case RunnerWrites(n) =>
      Regroup(s.adapter.inbox, s.down, s.runner.outbox, n);
    case RunnerReads(n) =>
      Regroup([], s.runner.inbox, s.up, n);
    case AdapterWrites(n) =>
      Regroup(s.runner.inbox, s.up, s.adapter.outbox, n);
    case AdapterReads(n) =>
      Regroup([], s.adapter.inbox, s.down, n);
    case RunnerHandles =>
      FirstOff(s.runner.inbox, s.up, s.adapter.outbox);
    case AdapterHandles =>
      FirstOff(s.adapter.inbox, s.down, s.runner.outbox);
  }

  lemma {:induction false} Regroup(a: seq<Byte>, b: seq<Byte>, c: seq<Byte>, n: nat)
    requires n <= |c|
    ensures a + b + c == a + (b + c[..n]) + c[n..] && b + c == (b + c[..n]) + c[n..]
  {
  }

  lemma {:induction false} FirstOff(a: seq<Byte>, b: seq<Byte>, c: seq<Byte>)
    ensures a + b + c == FirstLine(a) + (a[|FirstLine(a)|..] + b + c)
  {
    hide FirstLine;
  }

  ghost predicate IsRun(setup: Setup, states: seq<System>, events: seq<Event>) {
    |states| == |events| + 1 &&
    forall k :: 0 <= k < |events| ==> Enabled(setup, states[k], events[k]) && states[k + 1] == NextSystem(setup,
      states[k], events[k])
  }

  // ---------- the six messages ----------

  function AckMessage(setup: Setup): Value {
    CapabilitiesAck(setup.ack, [setup.op], Str(setup.world.stamps(1).id))
  }

  function Asked(setup: Setup): Value { InvokeMessage(setup.request, setup.op, setup.args, setup.timeoutMs) }

  function HelloAckOf(setup: Setup): Value { HelloAck(setup.world.stamps(0), Str(setup.hello.id)) }

  function CapabilitiesMessage(setup: Setup): Value { Capabilities(setup.kind, setup.world.stamps(1)) }

  /** The adapter's function of the arguments. */
  function ReactionOf(setup: Setup): Reaction
    requires setup.args.Obj?
  {
    OperateAnswers(setup.world, setup.kind, Str(setup.op), setup.args);
    Operate(setup.world, setup.kind, Str(setup.op), setup.args).value
  }

  function Answered(setup: Setup): Value
    requires setup.args.Obj?
  {
    ReactionMessage(setup.world.stamps(2), Str(setup.request.id), ReactionOf(setup))
  }

  /** What the runner must end with. */
  function Expected(setup: Setup): Outcome
    requires setup.args.Obj?
  {
    match ReactionOf(setup)
    case Data(data) => Success(Obj([Field("ok", Bool(true)), Field("data", data)]))
    case Refusal(_, _, _) => Failed(AdapterError)
  }

  /** The arguments are a float-free object, the request id is not empty, a pipe holds at least one
    byte, and what a wrapper's receipt file parses to is a value a program can hold. */
  ghost predicate Sound(setup: Setup) {
    && setup.args.Obj? && Plain(setup.args) && setup.request.id != "" && setup.capacity >= 1
    && forall cmd :: setup.world.process(cmd).Ran? ==> Plain(setup.world.process(cmd).receipt)
  }

  // ---------- they are values a program can hold ----------

  lemma {:induction false} PlainMessage(stamp: Stamp, kind: string, payload: Value, replyTo: Value)
    requires Plain(payload) && Plain(replyTo)
    ensures Plain(ToDict(stamp, kind, payload, replyTo)) && Plain(Reply(stamp, kind, replyTo, payload))
  {
    KeyNames();
    hide IPC_VERSION;
  }

  lemma {:induction false} PlainStrings(texts: seq<string>)
    ensures Plain(Strings(texts))
  {
  }

  lemma {:induction false} PlainPair(key1: string, v1: Value, key2: string, v2: Value)
    requires key1 != key2 && Plain(v1) && Plain(v2)
    ensures Plain(Obj([Field(key1, v1), Field(key2, v2)])) && Plain(Obj([Field(key1, v1)]))
  {
  }

  lemma {:induction false} PlainHello(setup: Setup)
    ensures Plain(HelloOf(setup))
  {
    PlainStrings([IPC_VERSION]);
    PlainStrings([setup.op]);
    assert |"role"| == 4 && |"protocols"| == 9 && |"requestedCapabilities"| == 21 && |"session"| == 7;
    var session := Obj([Field("pid", Num(setup.pid))]);
    assert Plain(session);
    var payload := Obj([Field("role", Str("runner")), Field("protocols", Strings([IPC_VERSION])),
                        Field("requestedCapabilities", Strings([setup.op])), Field("session", session)]);
    hide IPC_VERSION, Strings;
    assert Plain(payload);
    PlainMessage(setup.hello, "hello", payload, Null);
  }

  lemma {:induction false} PlainAck(setup: Setup)
    ensures Plain(AckMessage(setup))
  {
    PlainStrings([setup.op]);
    hide Strings;
    PlainMessage(setup.ack, "capabilities_ack", Obj([Field("accepted", Strings([setup.op]))]),
      Str(setup.world.stamps(1).id));
  }

  lemma {:induction false} PlainAsked(setup: Setup)
    requires Sound(setup)
    ensures Plain(Asked(setup))
  {
    assert |"op"| == 2 && |"args"| == 4 && |"timeoutMs"| == 9;
    PlainMessage(setup.request, "invoke",
                 Obj([Field("op", Str(setup.op)), Field("args", setup.args), Field("timeoutMs",
                   Num(setup.timeoutMs))]), Null);
  }

  lemma {:induction false} PlainCapability(name: string, sideEffects: string, defaultMs: int, more: seq<Field>)
    requires PlainFields(more)
    requires forall i :: 0 <= i < |more| ==>
               more[i].key != "name" && more[i].key != "sideEffects" && more[i].key != "timeouts"
    ensures Plain(Capability(name, sideEffects, defaultMs, more))
  {
    assert |"name"| == 4 && |"sideEffects"| == 11 && |"timeouts"| == 8;
    var timeouts := Obj([Field("defaultMs", Num(defaultMs))]);
    assert Plain(timeouts);
  }

  lemma {:induction false} PlainRemote(name: string)
    ensures Plain(Remote(name).value) && Remote(name).key == "remote"
  {
    assert |"protocol"| == 8 && |"method"| == 6;
  }

  lemma {:induction false} ExtraKeys()
    ensures "remote" != "name" && "remote" != "sideEffects" && "remote" != "timeouts"
    ensures "skeletonMode" != "name" && "skeletonMode" != "sideEffects" && "skeletonMode" != "timeouts"
    ensures "wrapper" != "name" && "wrapper" != "sideEffects" && "wrapper" != "timeouts"
    ensures "network" != "name" && "network" != "sideEffects" && "network" != "timeouts"
    ensures "remote" != "skeletonMode" && "remote" != "wrapper" && "remote" != "network" && "wrapper" != "network"
  {
    assert |"remote"| == 6 && |"skeletonMode"| == 12 && |"wrapper"| == 7 && |"network"| == 7 && |"name"| == 4;
    assert |"sideEffects"| == 11 && |"timeouts"| == 8 && "wrapper"[0] != "network"[0];
  }

  lemma {:induction false} PlainWrapperCapability(name: string, op: string, wrapper: string)
    ensures Plain(Capability(name, "filesystem", 30000, [Remote(op), Field("wrapper", Str(wrapper)), Field("network",
            Bool(false))]))
  {
    hide Capability, Remote;
    ExtraKeys();
    PlainRemote(op);
    PlainCapability(name, "filesystem", 30000, [Remote(op), Field("wrapper", Str(wrapper)), Field("network",
      Bool(false))]);
  }

  lemma {:induction false} PlainEchoCapability()
    ensures Plain(Capability("remote.echo", "network", 10000, [Remote("echo"), Field("skeletonMode", Bool(true))]))
  {
    hide Capability, Remote;
    ExtraKeys();
    PlainRemote("echo");
    PlainCapability("remote.echo", "network", 10000, [Remote("echo"), Field("skeletonMode", Bool(true))]);
  }

  lemma {:induction false} PlainCapabilityList(kind: Kind)
    ensures Plain(Arr(CapabilityList(kind)))
  {
    hide Capability, Remote;
    PlainCapability("text.caps", "none", 10000, []);
    PlainEchoCapability();
    PlainWrapperCapability("tritrpc.fixture.verify", "fixture.verify", "tools/run-tritrpc-rust-cli-check");
    PlainWrapperCapability("tritrpc.frame.pack", "frame.pack", "tools/run-tritrpc-frame-pack-check");
    var items := CapabilityList(kind);
    hide CapabilityList;
    assert Plain(Arr(items)) <==> forall i :: 0 <= i < |items| ==> Plain(items[i]);
  }

  lemma {:induction false} PlainAdapterName(kind: Kind)
    ensures Plain(AdapterName(kind))
  {
    assert |"name"| == 4 && |"version"| == 7;
  }

  lemma {:induction false} PlainCapabilities(setup: Setup)
    ensures Plain(CapabilitiesMessage(setup)) && Plain(HelloAckOf(setup))
  {
    hide CapabilityList, AdapterName, IPC_VERSION, Plain;
    PlainCapabilityList(setup.kind);
    PlainAdapterName(setup.kind);
    assert |"adapter"| == 7 && |"capabilities"| == 12 && |"role"| == 4 && |"selected"| == 8;
    PlainText("adapter");
    PlainText(IPC_VERSION);
    PlainText(setup.hello.id);
    PlainPair("adapter", AdapterName(setup.kind), "capabilities", Arr(CapabilityList(setup.kind)));
    PlainMessage(setup.world.stamps(1), "capabilities", CapabilitiesOf(setup.kind), Null);
    PlainPair("role", Str("adapter"), "selected", Str(IPC_VERSION));
    PlainMessage(setup.world.stamps(0), "hello_ack", Obj([Field("role", Str("adapter")), Field("selected",
      Str(IPC_VERSION))]),
                 Str(setup.hello.id));
  }

  lemma {:induction false} PlainText(s: string)
    ensures Plain(Str(s)) && Plain(Null)
  {
  }

  ghost predicate PlainReaction(reaction: Reaction) {
    match reaction
    case Data(data) => Plain(data)
    case Refusal(_, _, details) => details.Some? ==> Plain(details.value)
  }

  lemma {:induction false} PlainWrapperData(world: World, command: Command, ran: Process)
    requires command.Command? && ran.Ran? && Plain(ran.receipt)
    ensures Plain(WrapperData(world, command, ran))
  {
    PlainStrings(Redact(command.cmd));
    hide Strings, Redact;
    assert |"command"| == 7 && |"exitCode"| == 8 && |"stdout"| == 6 && |"stderr"| == 6 && |"receipt"| == 7
      && |"mode"| == 4;
    assert |"ok"| == 2 && |"receiptPayload"| == 14 && "command"[0] != "receipt"[0] && "stdout"[3] != "stderr"[3];
  }

  lemma {:induction false} PlainWrapped(world: World, command: Command, code: string, failure: string)
    requires forall cmd :: world.process(cmd).Ran? ==> Plain(world.process(cmd).receipt)
    ensures PlainReaction(Wrapped(world, command, code, failure))
  {
    hide WrapperData;
    if command.Command? && world.process(command.cmd).Ran? {
      PlainWrapperData(world, command, world.process(command.cmd));
    }
  }

  lemma {:induction false} PlainSingle(key: string, text: string)
    ensures Plain(Obj([Field(key, Str(text))]))
  {
  }

  lemma {:induction false} PlainEcho(args: Value)
    requires Plain(args)
    ensures Plain(Echo(args))
  {
    assert |"skeletonMode"| == 12 && |"transport"| == 9 && |"method"| == 6 && |"args"| == 4;
  }

  lemma {:induction false} PlainTextCaps(world: World, args: Value)
    requires args.Obj?
    ensures PlainReaction(TextCaps(world, args).value)
  {
    hide Find, Plain;
    match Item(args, "text")
    case Str(text) => PlainSingle("text", world.upper(text));
    case _ =>
  }

  lemma {:induction false} PlainOperate(setup: Setup)
    requires Sound(setup)
    ensures PlainReaction(ReactionOf(setup))
  {
    var world, args := setup.world, setup.args;
    hide Wrapped, VerifyCommand, PackCommand, Echo, TextCaps, Plain;
    PlainWrapped(world, VerifyCommand(world, args), "TRITRPC_FIXTURE_VERIFY_FAILED", "fixture verify wrapper failed");
    PlainWrapped(world, PackCommand(world, args), "TRITRPC_FRAME_PACK_FAILED", "frame pack wrapper failed");
    PlainEcho(args);
    PlainSingle("op", setup.op);
    PlainTextCaps(world, args);
  }

  lemma {:induction false} PlainErrorPayload(code: string, message: string, details: Option<Value>)
    requires details.Some? ==> Plain(details.value)
    ensures Plain(Obj([Field("code", Str(code)), Field("message", Str(message)), Field("retryable", Bool(false))] +
                      if details.Some? then [Field("details", details.value)] else []))
  {
    assert |"code"| == 4 && |"message"| == 7 && |"retryable"| == 9 && |"details"| == 7 && "message"[0] != "details"[0];
  }

  lemma {:induction false} PlainAnswered(setup: Setup)
    requires Sound(setup)
    ensures Plain(Answered(setup))
  {
    hide ReactionOf, Plain;
    PlainOperate(setup);
    var stamp, id := setup.world.stamps(2), Str(setup.request.id);
    PlainText(setup.request.id);
    match ReactionOf(setup)
    case Data(data) =>
      assert |"ok"| == 2 && |"data"| == 4;
      PlainOk();
      PlainPair("ok", Bool(true), "data", data);
      PlainMessage(stamp, "result", Obj([Field("ok", Bool(true)), Field("data", data)]), id);
    case Refusal(code, message, details) =>
      PlainErrorPayload(code, message, details);
      PlainMessage(stamp, "error", ErrorMessage(stamp, id, code, message, details).fields[4].value, id);
  }

  lemma {:induction false} PlainOk()
    ensures Plain(Bool(true))
  {
  }

  // ---------- how each process takes them ----------

  lemma {:induction false} MoreTypeNames()
    ensures "hello_ack" != "hello" && "hello_ack" != "invoke" && "capabilities" != "hello" && "capabilities" != "invoke"
    ensures "capabilities_ack" != "hello" && "capabilities_ack" != "invoke" && "hello" != "invoke"
    ensures "hello_ack" != "capabilities" && "result" != "error" && "hello_ack" != "error" && "capabilities" != "error"
  {
    assert |"hello_ack"| == 9 && |"capabilities"| == 12 && |"result"| == 6 && |"error"| == 5;
    assert |"hello"| == 5 && |"invoke"| == 6 && |"capabilities_ack"| == 16;
  }

  lemma {:induction false} RunnerTakesHelloAck(setup: Setup)
    ensures RunnerOnLine(setup, Shaking, Frame(HelloAckOf(setup))) == (Shaking, [])
  {
    PlainCapabilities(setup);
    FrameReads(HelloAckOf(setup));
    ReplyFields(setup.world.stamps(0), "hello_ack", Str(setup.hello.id),
                Obj([Field("role", Str("adapter")), Field("selected", Str(IPC_VERSION))]));
    hide Find, ReadLine, Plain, Frame;
  }

  lemma {:induction false} RunnerTakesCapabilities(setup: Setup)
    ensures RunnerOnLine(setup, Shaking, Frame(CapabilitiesMessage(setup))) == (Invoking(0), [AckMessage(setup),
            Asked(setup)])
  {
    PlainCapabilities(setup);
    FrameReads(CapabilitiesMessage(setup));
    DictFields(setup.world.stamps(1), "capabilities", CapabilitiesOf(setup.kind), Null);
    MoreTypeNames();
    hide Find, ReadLine, Plain, Frame, CapabilityList, AdapterName, CapabilitiesAck, InvokeMessage;
  }

  /** An answer in an envelope of this version ends the wait. */
  lemma {:induction false} AnswerEnds(msg: Value, id: string, late: bool, payload: Value)
    requires IsEnvelope(msg) && RepliesTo(msg, id) && Payload(msg) == payload
    ensures HasType(msg, "result") ==> InvokeOn(msg, id, late) == Some(Success(payload))
    ensures HasType(msg, "error") ==> InvokeOn(msg, id, late) == Some(Failed(AdapterError))
  {
    hide IsEnvelope, RepliesTo, Payload;
    MoreTypeNames();
  }

  lemma {:induction false} DataAnswer(stamp: Stamp, id: string, data: Value)
    ensures var payload := Obj([Field("ok", Bool(true)), Field("data", data)]);
            var msg := Result(stamp, Str(id), data);
            IsEnvelope(msg) && RepliesTo(msg, id) && Payload(msg) == payload && HasType(msg, "result")
  {
    ReplyFields(stamp, "result", Str(id), Obj([Field("ok", Bool(true)), Field("data", data)]));
    hide Find, IPC_VERSION;
  }

  lemma {:induction false} ErrorAnswer(stamp: Stamp, id: string, code: string, message: string, details: Option<Value>)
    requires id != ""
    ensures var msg := ErrorMessage(stamp, Str(id), code, message, details);
            IsEnvelope(msg) && RepliesTo(msg, id) && HasType(msg, "error")
  {
    DictFields(stamp, "error", ErrorMessage(stamp, Str(id), code, message, details).fields[4].value, Str(id));
    hide Find, IPC_VERSION;
  }

  lemma {:induction false} RunnerTakesAnswer(setup: Setup)
    requires Sound(setup)
    ensures RunnerOnLine(setup, Invoking(0), Frame(Answered(setup))) == (Ended(Expected(setup)), [])
  {
    hide Find, ReadLine, Plain, Frame, ReactionOf, InvokeOn, Result, ErrorMessage, IsEnvelope, RepliesTo, Payload,
         HasType;
    PlainAnswered(setup);
    FrameReads(Answered(setup));
    var stamp, id := setup.world.stamps(2), setup.request.id;
    AnswerEnds(Answered(setup), id, setup.late(0), Payload(Answered(setup))) by { AnsweredFacts(setup); }
    AnsweredFacts(setup);
  }

  lemma {:induction false} AnsweredFacts(setup: Setup)
    requires Sound(setup)
    ensures var msg := Answered(setup);
            && IsEnvelope(msg) && RepliesTo(msg, setup.request.id)
            && (match ReactionOf(setup)
                case Data(data) => HasType(msg, "result") && Payload(msg) == Obj([Field("ok", Bool(true)),
                  Field("data", data)])
                case Refusal(_, _, _) => HasType(msg, "error"))
  {
    hide Find, Plain, ReactionOf, Result, ErrorMessage, IsEnvelope, RepliesTo, Payload, HasType;
    var stamp, id := setup.world.stamps(2), setup.request.id;
    match ReactionOf(setup)
    case Data(data) => DataAnswer(stamp, id, data);
    case Refusal(code, message, details) => ErrorAnswer(stamp, id, code, message, details);
  }

  lemma {:induction false} OneLineRun(setup: Setup, st: State, msg: Value)
    requires Plain(msg)
    ensures AdapterOnLine(setup, st, Frame(msg)) == OnMessage(setup.world, setup.kind, st, msg)
  {
    FrameTextLines(msg);
    hide TextLines, Frame, OnMessage, ReadText, Plain, LineOf;
    var line := LineOf(msg) + "\n";
    assert [line][1..] == [];
    var turn := OnLine(setup.world, setup.kind, st, line);
    assert turn == OnMessage(setup.world, setup.kind, st, msg);
    assert RunFrom(setup.world, setup.kind, turn.state, []) == Turn(turn.state, [], None);
    assert turn.sent + [] == turn.sent;
    assert RunFrom(setup.world, setup.kind, st, [line]) == turn;
  }

  /** The adapter's state after the hello. */
  function Negotiated(setup: Setup): State { State(true, setup.kind.Caps?, 2) }

  lemma {:induction false} OnHello(world: World, kind: Kind, msg: Value, id: Value)
    requires msg.Obj? && Item(msg, "v") == Str(IPC_VERSION) && Item(msg, "type") == Str("hello")
    requires Item(msg, "id") == id
    ensures OnMessage(world, kind, START, msg) ==
            Turn(State(true, kind.Caps?, 2), [HelloAck(world.stamps(0), id), Capabilities(kind, world.stamps(1))], None)
  {
    hide Item, HelloAck, Capabilities, IPC_VERSION;
  }

  lemma {:induction false} HelloFields(setup: Setup)
    ensures var msg := HelloOf(setup);
            && msg.Obj? && Item(msg, "v") == Str(IPC_VERSION) && Item(msg, "type") == Str("hello")
            && Item(msg, "id") == Str(setup.hello.id)
  {
    var payload := Obj([Field("role", Str("runner")), Field("protocols", Strings([IPC_VERSION])),
                        Field("requestedCapabilities", Strings([setup.op])), Field("session", Obj([Field("pid",
                          Num(setup.pid))]))]);
    DictFields(setup.hello, "hello", payload, Null);
    hide Find, Strings, IPC_VERSION;
  }

  lemma {:induction false} AdapterTakesHello(setup: Setup)
    ensures AdapterOnLine(setup, START, Frame(HelloOf(setup))) ==
            Turn(Negotiated(setup), [HelloAckOf(setup), CapabilitiesMessage(setup)], None)
  {
    hide Find, Frame, Plain, AdapterOnLine, HelloAck, Capabilities, HelloOf, OnMessage, Item, IPC_VERSION;
    PlainHello(setup);
    OneLineRun(setup, START, HelloOf(setup));
    HelloFields(setup);
    OnHello(setup.world, setup.kind, HelloOf(setup), Str(setup.hello.id));
  }

  lemma {:induction false} AdapterTakesAck(setup: Setup)
    ensures AdapterOnLine(setup, Negotiated(setup), Frame(AckMessage(setup))) == Turn(Negotiated(setup), [], None)
  {
    PlainAck(setup);
    OneLineRun(setup, Negotiated(setup), AckMessage(setup));
    DictFields(setup.ack, "capabilities_ack", Obj([Field("accepted", Strings([setup.op]))]),
      Str(setup.world.stamps(1).id));
    MoreTypeNames();
    hide Find, Frame, Plain, AdapterOnLine, Strings;
  }

  lemma {:induction false} AdapterTakesInvoke(setup: Setup)
    requires Sound(setup)
    ensures AdapterOnLine(setup, Negotiated(setup), Frame(Asked(setup))) ==
            Turn(Negotiated(setup).(count := 3), [Answered(setup)], None)
  {
    PlainAsked(setup);
    OneLineRun(setup, Negotiated(setup), Asked(setup));
    var payload := Obj([Field("op", Str(setup.op)), Field("args", setup.args), Field("timeoutMs",
      Num(setup.timeoutMs))]);
    DictFields(setup.request, "invoke", payload, Null);
    AskedFields(setup);
    MoreTypeNames();
    OperateAnswers(setup.world, setup.kind, Str(setup.op), setup.args);
    hide Find, Frame, Plain, AdapterOnLine, Operate, ReactionMessage;
  }

  lemma {:induction false} AskedFields(setup: Setup)
    requires setup.args.Obj?
    ensures var payload := Obj([Field("op", Str(setup.op)), Field("args", setup.args), Field("timeoutMs",
            Num(setup.timeoutMs))]);
            && Item(payload, "op") == Str(setup.op) && Item(payload, "args") == setup.args
            && OrEmpty(setup.args) == setup.args && payload.Truthy()
  {
    var f := [Field("op", Str(setup.op)), Field("args", setup.args), Field("timeoutMs", Num(setup.timeoutMs))];
    assert |"op"| == 2 && |"args"| == 4;
    FindIn(f, 0);
    FindIn(f, 1);
  }
}
