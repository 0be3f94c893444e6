/** The two IPC v0 adapters: `caps_adapter` (text.caps) and `tritrpc_bridge_adapter` (remote.echo and
  two wrapper programs). Each is a loop over the lines of its stdin. */
module IpcAdapters {
  import opened Sequences
  import opened Json
  import opened Utf8
  import opened Ndjson
  import opened IpcRunner
  import Receipts

  /** How a wrapper program went: it could not be run, or it ended. `receipt` is what its receipt
    file parses to, null when it does not. */
  datatype Process = NotRun(reason: string) | Ran(exitCode: int, stdout: string, stderr: string, receipt: Value)

  /** What an adapter takes from its surroundings: message ids and times, `str.upper`, `str()` of a
    float, list or dict, the text of the exception of a failed `.get`, and the outcome of running a command. */
  datatype World = World(
    stamps: nat -> Stamp, upper: string -> string, show: Value -> string, complaint: Value -> string,
    process: seq<string> -> Process, python: string, verifyWrapper: string, packWrapper: string)

  datatype Kind = Caps | Bridge

  /** The flags of `main`, and how many messages were sent. */
  datatype State = State(negotiated: bool, capsSent: bool, count: nat)

  const START := State(false, false, 0)

  /** `Mismatch` is exit code 2; `Crash` an uncaught exception. */
  datatype Stop = Mismatch | Crash

  /** What one line of input leads to. */
  datatype Turn = Turn(state: State, sent: seq<Value>, stop: Option<Stop>)

  /** `str(v)`. */
  function Text(world: World, v: Value): string { StrOf(world.show, v) }

  // ---------- messages ----------

  function Reply(stamp: Stamp, kind: string, replyTo: Value, payload: Value): Value {
    Obj([Field("v", Str(IPC_VERSION)), Field("id", Str(stamp.id)), Field("ts", Str(stamp.ts)),
         Field("type", Str(kind)), Field("replyTo", replyTo), Field("payload", payload)])
  }

  function HelloAck(stamp: Stamp, replyTo: Value): Value {
    Reply(stamp, "hello_ack", replyTo, Obj([Field("role", Str("adapter")), Field("selected", Str(IPC_VERSION))]))
  }

  function Capability(name: string, sideEffects: string, defaultMs: int, more: seq<Field>): Value {
    Obj([Field("name", Str(name)), Field("sideEffects", Str(sideEffects)),
         Field("timeouts", Obj([Field("defaultMs", Num(defaultMs))]))] + more)
  }

  function Remote(method_: string): Field {
    Field("remote", Obj([Field("protocol", Str("tritrpc")), Field("method", Str(method_))]))
  }

  function CapabilityList(kind: Kind): seq<Value> {
    match kind
    case Caps => [Capability("text.caps", "none", 10000, [])]
    case Bridge => [
      Capability("remote.echo", "network", 10000, [Remote("echo"), Field("skeletonMode", Bool(true))]),
      Capability("tritrpc.fixture.verify", "filesystem", 30000,
                 [Remote("fixture.verify"), Field("wrapper", Str("tools/run-tritrpc-rust-cli-check")),
                  Field("network", Bool(false))]),
      Capability("tritrpc.frame.pack", "filesystem", 30000,
                 [Remote("frame.pack"), Field("wrapper", Str("tools/run-tritrpc-frame-pack-check")),
                  Field("network", Bool(false))])]
  }

  function AdapterName(kind: Kind): Value {
    match kind
    case Caps => Obj([Field("name", Str("caps-adapter")), Field("version", Str("0.1.0"))])
    case Bridge => Obj([Field("name", Str("tritrpc-bridge-adapter")), Field("version", Str("0.3.0"))])
  }

  function CapabilitiesOf(kind: Kind): Value {
    Obj([Field("adapter", AdapterName(kind)), Field("capabilities", Arr(CapabilityList(kind)))])
  }

  function Capabilities(kind: Kind, stamp: Stamp): Value {
    ToDict(stamp, "capabilities", CapabilitiesOf(kind), Null)
  }

  /** `error` and `send_error`. */
  function ErrorMessage(stamp: Stamp, replyTo: Value, code: string, message: string, details: Option<Value>): Value {
    ToDict(stamp, "error",
           Obj([Field("code", Str(code)), Field("message", Str(message)), Field("retryable", Bool(false))] +
               if details.Some? then [Field("details", details.value)] else []),
           replyTo)
  }

  function Result(stamp: Stamp, replyTo: Value, data: Value): Value {
    Reply(stamp, "result", replyTo, Obj([Field("ok", Bool(true)), Field("data", data)]))
  }

  // ---------- operations ----------

  /** `v.get(key)` of a dict. */
  function Item(v: Value, key: string): Value
    requires v.Obj?
  {
    match Find(v.fields, key) case Some(w) => w case None => Null
  }

  function OrEmpty(v: Value): Value { if v.Truthy() then v else Obj([]) }

  /** What an operation answers: a result, or the code, message and details of an error. */
  datatype Reaction = Data(data: Value) | Refusal(code: string, message: string, details: Option<Value>)

  /** `text.caps`; `None` when `args` is no dict, which nothing catches. */
  function TextCaps(world: World, args: Value): Option<Reaction> {
    if !args.Obj? then None
    else
      match Item(args, "text")
      case Str(text) => Some(Data(Obj([Field("text", Str(world.upper(text)))])))
      case _ => Some(Refusal("ADAPTER_BAD_INPUT", "text must be string", None))
  }

  function Echo(args: Value): Value {
    Obj([Field("skeletonMode", Bool(true)), Field("transport", Str("tritrpc")), Field("method", Str("echo")),
      Field("args", args)])
  }

  /** The first of the keys whose argument is missing or falsy. */
  function FirstMissing(args: Value, keys: seq<string>): Option<string>
    requires args.Obj?
  {
    if keys == [] then None
    else if !Item(args, keys[0]).Truthy() then Some(keys[0])
    else FirstMissing(args, keys[1..])
  }

  function Options(world: World, args: Value, keys: seq<string>): seq<string>
    requires args.Obj?
  {
    if keys == [] then []
    else ["--" + keys[0], Text(world, Item(args, keys[0]))] + Options(world, args, keys[1..])
  }

  /** A command to run, or the text of the exception raised on the way to it. */
  datatype Command = Command(cmd: seq<string>, receipt: Value, executes: bool) | NoCommand(reason: string)

  const VERIFY_KEYS := ["trpc", "fixtures", "nonces"]
  const PACK_KEYS := ["service", "method", "json"]
  const VERIFY_RECEIPT := ".workstation/test-reports/tritrpc-rust-cli-check-adapter.json"
  const PACK_RECEIPT := ".workstation/test-reports/tritrpc-frame-pack-check-adapter.json"

  function ReceiptPath(args: Value, default: string): Value
    requires args.Obj?
  {
    if Item(args, "receipt").Truthy() then Item(args, "receipt") else Str(default)
  }

  /** `run_fixture_verify`, up to the wrapper. */
  function VerifyCommand(world: World, args: Value): Command {
    if !args.Obj? then NoCommand(world.complaint(args))
    else
      var receipt := ReceiptPath(args, VERIFY_RECEIPT);
      var executes := Item(args, "execute").Truthy();
      var base := [world.python, world.verifyWrapper, "--receipt", Text(world, receipt)];
      if !executes then Command(base, receipt, false)
      else
        match FirstMissing(args, VERIFY_KEYS)
        case Some(key) => NoCommand("execute mode requires " + key)
        case None => Command(base + ["--execute"] + Options(world, args, VERIFY_KEYS), receipt, true)
  }

  /** An option that is passed only when given. */
  function Optional(world: World, args: Value, key: string): seq<string>
    requires args.Obj?
  {
    if Item(args, key).Truthy() then ["--" + key, Text(world, Item(args, key))] else []
  }

  function PackBase(world: World, args: Value, receipt: Value): seq<string>
    requires args.Obj?
  {
    [world.python, world.packWrapper, "--receipt", Text(world, receipt)] + Options(world, args, PACK_KEYS)
    + Optional(world, args, "nonce") + Optional(world, args, "key")
  }

  /** `run_frame_pack`, up to the wrapper. */
  function PackCommand(world: World, args: Value): Command {
    if !args.Obj? then NoCommand(world.complaint(args))
    else
      var receipt := ReceiptPath(args, PACK_RECEIPT);
      match FirstMissing(args, PACK_KEYS)
      case Some(key) => NoCommand("tritrpc.frame.pack requires " + key)
      case None =>
        var executes := Item(args, "execute").Truthy();
        var base := PackBase(world, args, receipt);
        if !executes then Command(base, receipt, false)
        else if !Item(args, "trpc").Truthy() then NoCommand("execute mode requires trpc")
        else Command(base + ["--execute", "--trpc", Text(world, Item(args, "trpc"))], receipt, true)
  }

  /** Looks like a key or a nonce. */
  predicate IsSecret(part: string) { |part| == 64 && forall i :: 0 <= i < |part| ==> Receipts.IsHex(part[i]) }

  function Redact(cmd: seq<string>): seq<string> {
    seq(|cmd|, i requires 0 <= i < |cmd| => if IsSecret(cmd[i]) then "<redacted>" else cmd[i])
  }

  /** The dict of `run_wrapper`. */
  function WrapperData(world: World, command: Command, ran: Process): Value
    requires command.Command? && ran.Ran?
  {
    Obj([Field("command", Strings(Redact(command.cmd))), Field("exitCode", Num(ran.exitCode)),
         Field("stdout", Str(ran.stdout)), Field("stderr", Str(ran.stderr)), Field("receipt",
           Str(Text(world, command.receipt))),
         Field("mode", Str(if command.executes then "execute" else "dry-run"))] +
        if ran.exitCode != 0 then [Field("ok", Bool(false))]
        else [Field("receiptPayload", ran.receipt), Field("ok", Bool(true))])
  }

  /** A wrapper operation: any exception and any failed run become an error reply. */
  function Wrapped(world: World, command: Command, code: string, failure: string): Reaction {
    match command
    case NoCommand(reason) => Refusal(code, reason, None)
    case Command(cmd, _, _) =>
      match world.process(cmd)
      case NotRun(reason) => Refusal(code, reason, None)
      case Ran(exitCode, out, err, receipt) =>
        var data := WrapperData(world, command, Ran(exitCode, out, err, receipt));
        if exitCode != 0 then Refusal(code, failure, Some(data)) else Data(data)
  }

  function NoSuchOp(op: Value): Reaction {
    Refusal("ADAPTER_NO_SUCH_OP", "unknown op", Some(Obj([Field("op", op)])))
  }

  /** The answer to an invoke after the handshake; `None` is an uncaught exception. */
  function Operate(world: World, kind: Kind, op: Value, args: Value): Option<Reaction> {
    match kind
    case Caps => if op != Str("text.caps") then Some(NoSuchOp(op)) else TextCaps(world, args)
    case Bridge =>
      if op == Str("remote.echo") then Some(Data(Echo(args)))
      else if op == Str("tritrpc.fixture.verify") then
        Some(Wrapped(world, VerifyCommand(world, args), "TRITRPC_FIXTURE_VERIFY_FAILED",
          "fixture verify wrapper failed"))
      else if op == Str("tritrpc.frame.pack") then
        Some(Wrapped(world, PackCommand(world, args), "TRITRPC_FRAME_PACK_FAILED", "frame pack wrapper failed"))
      else Some(NoSuchOp(op))
  }

  // ---------- the loop body ----------

  function ReactionMessage(stamp: Stamp, replyTo: Value, reaction: Reaction): Value {
    match reaction
    case Data(data) => Result(stamp, replyTo, data)
    case Refusal(code, message, details) => ErrorMessage(stamp, replyTo, code, message, details)
  }

  predicate Ready(kind: Kind, st: State) { st.negotiated && (kind.Caps? ==> st.capsSent) }

  function OnInvoke(world: World, kind: Kind, st: State, msg: Value): Turn
    requires msg.Obj?
  {
    var id, stamp, next := Item(msg, "id"), world.stamps(st.count), st.(count := st.count + 1);
    if !Ready(kind, st) then Turn(next, [ErrorMessage(stamp, id, "IPC_STATE", "invoke before handshake", None)], None)
    else
      var payload := OrEmpty(Item(msg, "payload"));
      if !payload.Obj? then Turn(st, [], Some(Crash))
      else
        match Operate(world, kind, Item(payload, "op"), OrEmpty(Item(payload, "args")))
        case None => Turn(st, [], Some(Crash))
        case Some(reaction) => Turn(next, [ReactionMessage(stamp, id, reaction)], None)
  }

  function OnMessage(world: World, kind: Kind, st: State, msg: Value): Turn {
    if !msg.Obj? then Turn(st, [], Some(Crash))
    else if Item(msg, "v") != Str(IPC_VERSION) then
      Turn(st.(count := st.count + 1),
           [ErrorMessage(world.stamps(st.count), Null, "IPC_PROTO_MISMATCH", "unsupported protocol",
                         Some(Obj([Field("got", Item(msg, "v"))])))],
           Some(Mismatch))
    else if Item(msg, "type") == Str("hello") then
      Turn(State(true, if kind.Caps? then true else st.capsSent, st.count + 2),
           [HelloAck(world.stamps(st.count), Item(msg, "id")), Capabilities(kind, world.stamps(st.count + 1))], None)
    else if Item(msg, "type") == Str("invoke") then OnInvoke(world, kind, st, msg)
    else Turn(st, [], None)
  }

  function OnLine(world: World, kind: Kind, st: State, line: string): Turn {
    match ReadText(line)
    case Message(_, msg) => OnMessage(world, kind, st, msg)
    case _ => Turn(st, [], None)
  }

  /** The loop: it goes on until the input is over or a turn stops it. */
  function RunFrom(world: World, kind: Kind, st: State, lines: seq<string>): Turn
    decreases |lines|
  {
    if lines == [] then Turn(st, [], None)
    else
      var turn := OnLine(world, kind, st, lines[0]);
      if turn.stop.Some? then turn
      else
        var more := RunFrom(world, kind, turn.state, lines[1..]);
        Turn(more.state, turn.sent + more.sent, more.stop)
  }

  // ---------- the programs ----------

  class Stdout {
    var bytes: seq<Byte>

    constructor ()
      ensures bytes == []
    {
      bytes := [];
    }

    /** `send`. */
    method Send(msg: Value)
      modifies this
      ensures bytes == old(bytes) + Frame(msg)
    {
      bytes := bytes + Encode(LineOf(msg) + "\n");
    }
  }

  datatype Exit = Code(n: int) | Uncaught

  function ExitOf(stop: Option<Stop>): Exit {
    match stop
    case None => Code(0)
    case Some(Mismatch) => Code(2)
    case Some(Crash) => Uncaught
  }

  /** `run_fixture_verify`: the command grows option by option. */
  method BuildVerify(world: World, args: Value) returns (c: Command)
    ensures c == VerifyCommand(world, args)
  {
    if !args.Obj? {
      return NoCommand(world.complaint(args));
    }
    var receipt := ReceiptPath(args, VERIFY_RECEIPT);
    var cmd := [world.python, world.verifyWrapper];
    cmd := cmd + ["--receipt", Text(world, receipt)];
    var base := cmd;
    if Item(args, "execute").Truthy() {
      hide Find, VERIFY_KEYS;
      var keys := VERIFY_KEYS;
      for i := 0 to |keys|
        invariant FirstMissing(args, keys) == FirstMissing(args, keys[i..])
      {
        if !Item(args, keys[i]).Truthy() {
          return NoCommand("execute mode requires " + keys[i]);
        }
        assert keys[i..][1..] == keys[i + 1..];
      }
      cmd := cmd + ["--execute"];
      var options := GrowOptions(world, args, keys);
      cmd := cmd + options;
      Associative(base, ["--execute"], options);
      return Command(cmd, receipt, true);
    }
    return Command(cmd, receipt, false);
  }

  method GrowOptions(world: World, args: Value, keys: seq<string>) returns (cmd: seq<string>)
    requires args.Obj?
    ensures cmd == Options(world, args, keys)
  {
    hide Find;
    cmd := [];
    for i := 0 to |keys|
      invariant Options(world, args, keys) == cmd + Options(world, args, keys[i..])
    {
      var option := ["--" + keys[i], Text(world, Item(args, keys[i]))];
      assert keys[i..][1..] == keys[i + 1..];
      Associative(cmd, option, Options(world, args, keys[i + 1..]));
      cmd := cmd + option;
    }
    assert keys[|keys|..] == [];
    assert cmd + [] == cmd;
  }

  method GrowPack(world: World, args: Value, receipt: Value) returns (cmd: seq<string>)
    requires args.Obj?
    ensures cmd == PackBase(world, args, receipt)
  {
    hide Item, PACK_KEYS, Options;
    cmd := [world.python, world.packWrapper];
    cmd := cmd + ["--receipt", Text(world, receipt)];
    var options := GrowOptions(world, args, PACK_KEYS);
    cmd := cmd + options;
    assert "--" + "nonce" == "--nonce" && "--" + "key" == "--key";
    assert forall c: seq<string> :: c + [] == c;
    if Item(args, "nonce").Truthy() {
      cmd := cmd + ["--nonce", Text(world, Item(args, "nonce"))];
    }
    if Item(args, "key").Truthy() {
      cmd := cmd + ["--key", Text(world, Item(args, "key"))];
    }
  }

  /** `run_frame_pack`. */
  method BuildPack(world: World, args: Value) returns (c: Command)
    ensures c == PackCommand(world, args)
  {
    if !args.Obj? {
      return NoCommand(world.complaint(args));
    }
    hide Find, PACK_KEYS, PackBase;
    var receipt := ReceiptPath(args, PACK_RECEIPT);
    var keys := PACK_KEYS;
    for i := 0 to |keys|
      invariant FirstMissing(args, keys) == FirstMissing(args, keys[i..])
    {
      if !Item(args, keys[i]).Truthy() {
        return NoCommand("tritrpc.frame.pack requires " + keys[i]);
      }
      assert keys[i..][1..] == keys[i + 1..];
    }
    var cmd := GrowPack(world, args, receipt);
    if Item(args, "execute").Truthy() {
      if !Item(args, "trpc").Truthy() {
        return NoCommand("execute mode requires trpc");
      }
      cmd := cmd + ["--execute", "--trpc", Text(world, Item(args, "trpc"))];
      return Command(cmd, receipt, true);
    }
    return Command(cmd, receipt, false);
  }

  /** What is left to do after the first `i` lines. */
  ghost predicate Resumes(world: World, kind: Kind, lines: seq<string>, i: nat, st: State, sent: seq<Value>)
    requires i <= |lines|
  {
    var whole, more := RunFrom(world, kind, START, lines), RunFrom(world, kind, st, lines[i..]);
    whole == Turn(more.state, sent + more.sent, more.stop)
  }

  lemma {:induction false} ResumeOne(world: World, kind: Kind, lines: seq<string>, i: nat, st: State, sent: seq<Value>)
    requires i < |lines| && Resumes(world, kind, lines, i, st, sent)
    ensures var turn := OnLine(world, kind, st, lines[i]);
            if turn.stop.Some? then
              RunFrom(world, kind, START, lines) == Turn(turn.state, sent + turn.sent, turn.stop)
            else Resumes(world, kind, lines, i + 1, turn.state, sent + turn.sent)
  {
    hide OnLine;
    var turn := OnLine(world, kind, st, lines[i]);
    assert lines[i..][1..] == lines[i + 1..];
    Associative(sent, turn.sent, RunFrom(world, kind, turn.state, lines[i + 1..]).sent);
  }

  /** The lines behind a run that went through. */
  lemma {:induction false} ResumeEnd(world: World, kind: Kind, lines: seq<string>, st: State, sent: seq<Value>)
    requires Resumes(world, kind, lines, |lines|, st, sent)
    ensures RunFrom(world, kind, START, lines) == Turn(st, sent, None)
  {
    hide OnLine;
    assert lines[|lines|..] == [];
    assert sent + [] == sent;
  }

  /** `caps_adapter.main`. */
  method CapsMain(world: World, stdin: seq<string>, stdout: Stdout) returns (exit: Exit)
    modifies stdout
    ensures var run := RunFrom(world, Caps, START, stdin);
            exit == ExitOf(run.stop) && stdout.bytes == old(stdout.bytes) + Frames(run.sent)
  {
    hide Frame, Frames, ReadText, RunFrom, HelloAck, Capabilities, ErrorMessage, Result, Resumes, TextCaps, Item,
         OrEmpty, IPC_VERSION;
    var negotiated, capsSent, count := false, false, 0;
    ghost var sent: seq<Value> := [];
    SentNothing(world, Caps, stdin);
    for i := 0 to |stdin|
      invariant Resumes(world, Caps, stdin, i, State(negotiated, capsSent, count), sent)
      invariant stdout.bytes == old(stdout.bytes) + Frames(sent)
    {
      ghost var st := State(negotiated, capsSent, count);
      ghost var turn := OnLine(world, Caps, st, stdin[i]);
      ResumeOne(world, Caps, stdin, i, st, sent);
      SentMore(sent, turn.sent);
      var line := ReadText(stdin[i]);
      if !line.Message? {
        continue;
      }
      var msg := line.msg;
      if !msg.Obj? {
        return Uncaught;
      }
      var stamp := world.stamps(count);
      if Item(msg, "v") != Str(IPC_VERSION) {
        stdout.Send(ErrorMessage(stamp, Null, "IPC_PROTO_MISMATCH", "unsupported protocol", Some(Obj([Field("got",
          Item(msg, "v"))]))));
        return Code(2);
      }
      var msgType, msgId := Item(msg, "type"), Item(msg, "id");
      if msgType == Str("hello") {
        negotiated := true;
        stdout.Send(HelloAck(stamp, msgId));
        stdout.Send(Capabilities(Caps, world.stamps(count + 1)));
        capsSent, count := true, count + 2;
      } else if msgType == Str("capabilities_ack") {
        DifferentTypes();
      } else if msgType == Str("invoke") {
        if !(negotiated && capsSent) {
          stdout.Send(ErrorMessage(stamp, msgId, "IPC_STATE", "invoke before handshake", None));
        } else {
          var payload := OrEmpty(Item(msg, "payload"));
          if !payload.Obj? {
            return Uncaught;
          }
          var op, args := Item(payload, "op"), OrEmpty(Item(payload, "args"));
          if op != Str("text.caps") {
            stdout.Send(ErrorMessage(stamp, msgId, "ADAPTER_NO_SUCH_OP", "unknown op", Some(Obj([Field("op", op)]))));
          } else {
            var reaction := TextCaps(world, args);
            if reaction.None? {
              return Uncaught;
            }
            stdout.Send(ReactionMessage(stamp, msgId, reaction.value));
          }
        }
        count := count + 1;
      }
      sent := sent + turn.sent;
    }
    ResumeEnd(world, Caps, stdin, State(negotiated, capsSent, count), sent);
    return Code(0);
  }

  lemma {:induction false} DifferentTypes()
    ensures "capabilities_ack" != "hello" && "capabilities_ack" != "invoke" && "hello" != "invoke"
  {
    assert |"capabilities_ack"| == 16 && |"hello"| == 5 && |"invoke"| == 6;
  }

  lemma {:induction false} SentNothing(world: World, kind: Kind, lines: seq<string>)
    ensures Resumes(world, kind, lines, 0, START, []) && Frames([]) == []
  {
    hide OnLine;
    assert lines[0..] == lines;
    var whole := RunFrom(world, kind, START, lines);
    assert [] + whole.sent == whole.sent;
  }

  /** Sending the messages of a turn one by one. */
  lemma {:induction false} SentMore(sent: seq<Value>, more: seq<Value>)
    ensures Frames(sent + more) == Frames(sent) + Frames(more)
    ensures |more| == 0 ==> sent + more == sent && Frames(more) == []
    ensures |more| == 1 ==> Frames(more) == Frame(more[0])
    ensures |more| == 2 ==> Frames(more) == Frame(more[0]) + Frame(more[1])
  {
    hide Frame;
    FramesAppend(sent, more);
    if |more| == 1 { assert more == [more[0]]; FramesOne(more[0]); }
    if |more| == 2 {
      assert more == [more[0]] + [more[1]];
      FramesOne(more[0]);
      FramesOne(more[1]);
      FramesAppend([more[0]], [more[1]]);
    }
  }

  /** The operations of the bridge. */
  method BridgeOperate(world: World, op: Value, args: Value) returns (reaction: Reaction)
    ensures Operate(world, Bridge, op, args) == Some(reaction)
  {
    hide VerifyCommand, PackCommand, Wrapped;
    reaction := NoSuchOp(op);
    if op == Str("remote.echo") {
      reaction := Data(Echo(args));
    } else if op == Str("tritrpc.fixture.verify") {
      var command := BuildVerify(world, args);
      reaction := Wrapped(world, command, "TRITRPC_FIXTURE_VERIFY_FAILED", "fixture verify wrapper failed");
    } else if op == Str("tritrpc.frame.pack") {
      var command := BuildPack(world, args);
      reaction := Wrapped(world, command, "TRITRPC_FRAME_PACK_FAILED", "frame pack wrapper failed");
    }
  }

  /** `tritrpc_bridge_adapter.main`. */
  method BridgeMain(world: World, stdin: seq<string>, stdout: Stdout) returns (exit: Exit)
    modifies stdout
    ensures var run := RunFrom(world, Bridge, START, stdin);
            exit == ExitOf(run.stop) && stdout.bytes == old(stdout.bytes) + Frames(run.sent)
  {
    hide Frame, Frames, ReadText, RunFrom, HelloAck, Capabilities, ErrorMessage, Result, Resumes, Operate, Item,
         OrEmpty, ReactionMessage;
    var negotiated, count := false, 0;
    ghost var sent: seq<Value> := [];
    SentNothing(world, Bridge, stdin);
    for i := 0 to |stdin|
      invariant Resumes(world, Bridge, stdin, i, State(negotiated, false, count), sent)
      invariant stdout.bytes == old(stdout.bytes) + Frames(sent)
    {
      ghost var st := State(negotiated, false, count);
      ghost var turn := OnLine(world, Bridge, st, stdin[i]);
      ResumeOne(world, Bridge, stdin, i, st, sent);
      SentMore(sent, turn.sent);
      var line := ReadText(stdin[i]);
      if !line.Message? {
        continue;
      }
      var msg := line.msg;
      if !msg.Obj? {
        return Uncaught;
      }
      var stamp := world.stamps(count);
      if Item(msg, "v") != Str(IPC_VERSION) {
        stdout.Send(ErrorMessage(stamp, Null, "IPC_PROTO_MISMATCH", "unsupported protocol", Some(Obj([Field("got",
          Item(msg, "v"))]))));
        return Code(2);
      }
      var msgType, msgId := Item(msg, "type"), Item(msg, "id");
      if msgType == Str("hello") {
        negotiated := true;
        stdout.Send(HelloAck(stamp, msgId));
        stdout.Send(Capabilities(Bridge, world.stamps(count + 1)));
        count := count + 2;
      } else if msgType == Str("capabilities_ack") {
        DifferentTypes();
      } else if msgType == Str("invoke") {
        if !negotiated {
          stdout.Send(ErrorMessage(stamp, msgId, "IPC_STATE", "invoke before handshake", None));
        } else {
          var payload := OrEmpty(Item(msg, "payload"));
          if !payload.Obj? {
            return Uncaught;
          }
          var op, args := Item(payload, "op"), OrEmpty(Item(payload, "args"));
          var reaction := BridgeOperate(world, op, args);
          stdout.Send(ReactionMessage(stamp, msgId, reaction));
        }
        count := count + 1;
      }
      sent := sent + turn.sent;
    }
    ResumeEnd(world, Bridge, stdin, State(negotiated, false, count), sent);
    return Code(0);
  }
}
