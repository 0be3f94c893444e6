/** The messages of IPC v0, field by field as their receivers look them up, and what each party makes of
  a message it gets. */
module IpcMessages {
  import opened Json
  import opened JsonCanonical
  import opened IpcRunner
  import opened IpcAdapters
  import opened IpcAdapterLaws

  /** The value has this under the key. */
  predicate Has(v: Value, key: string, value: Value) {
    v.Obj? && Find(v.fields, key) == Some(value)
  }

  predicate Lacks(v: Value, key: string) {
    v.Obj? && Find(v.fields, key) == None
  }

  /** The value is a dict that has just these `n` keys, each once. */
  ghost predicate Sized(v: Value, n: nat) {
    v.Obj? && |v.fields| == n && Distinct(v.fields)
  }

  /** The envelope every message has. */
  ghost predicate Envelope(v: Value, stamp: Stamp, kind: string) {
    && Has(v, "v", Str("ipc.v0")) && Has(v, "id", Str(stamp.id)) && Has(v, "ts", Str(stamp.ts))
    && Has(v, "type", Str(kind))
  }

  /** What stands under the `i`-th key of a dict with distinct keys. */
  lemma {:induction false} HasAt(fields: seq<Field>, i: nat)
    requires Distinct(fields) && i < |fields|
    ensures Has(Obj(fields), fields[i].key, fields[i].value)
  {
    hide Find;
    FindAt(fields, i);
  }

  lemma {:induction false} LacksKey(fields: seq<Field>, key: string)
    requires forall i :: 0 <= i < |fields| ==> fields[i].key != key
    ensures Lacks(Obj(fields), key)
  {
    hide Find;
    FindNone(fields, key);
  }

  lemma {:induction false} StringsAre(texts: seq<string>)
    ensures Strings(texts).Arr? && |Strings(texts).items| == |texts|
    ensures forall i :: 0 <= i < |texts| ==> Strings(texts).items[i] == Str(texts[i])
  {
  }

  // ---------- what the runner sends ----------

  lemma {:induction false} DictIs(stamp: Stamp, kind: string, payload: Value, replyTo: Value)
    ensures var m := ToDict(stamp, kind, payload, replyTo);
            && Envelope(m, stamp, kind) && Has(m, "payload", payload)
            && if replyTo.Truthy() then Has(m, "replyTo", replyTo) else Lacks(m, "replyTo")
  {
    DictFields(stamp, kind, payload, replyTo);
    hide Find;
  }

  lemma {:induction false} HelloKeys()
    ensures "role" != "protocols" && "role" != "requestedCapabilities" && "role" != "session"
    ensures "protocols" != "requestedCapabilities" && "protocols" != "session" && "requestedCapabilities" != "session"
  {
    assert |"role"| == 4 && |"protocols"| == 9 && |"requestedCapabilities"| == 21 && |"session"| == 7;
  }

  /** The runner's hello: it offers this protocol alone and asks for the capabilities. */
  lemma {:induction false} HelloIs(stamp: Stamp, caps: seq<string>, pid: nat) returns (payload: Value)
    ensures var m := Hello(stamp, caps, pid);
            && Envelope(m, stamp, "hello") && Lacks(m, "replyTo") && Has(m, "payload", payload) && Sized(payload, 4)
            && Has(payload, "role", Str("runner")) && Has(payload, "protocols", Strings(["ipc.v0"]))
            && Has(payload, "requestedCapabilities", Strings(caps))
            && Has(payload, "session", Obj([Field("pid", Num(pid))]))
  {
    HelloKeys();
    hide Has, Lacks, ToDict, Strings;
    payload := Obj([Field("role", Str("runner")), Field("protocols", Strings([IPC_VERSION])),
                    Field("requestedCapabilities", Strings(caps)), Field("session", Obj([Field("pid", Num(pid))]))]);
    DictIs(stamp, "hello", payload, Null);
    HasAt(payload.fields, 0);
    HasAt(payload.fields, 1);
    HasAt(payload.fields, 2);
    HasAt(payload.fields, 3);
  }

  /** The acknowledgement accepts the same capabilities and replies to the adapter's message. */
  lemma {:induction false} CapabilitiesAckIs(stamp: Stamp, caps: seq<string>, replyTo: Value)
    ensures var m := CapabilitiesAck(stamp, caps, replyTo);
            && Envelope(m, stamp, "capabilities_ack")
            && Has(m, "payload", Obj([Field("accepted", Strings(caps))]))
            && if replyTo.Truthy() then Has(m, "replyTo", replyTo) else Lacks(m, "replyTo")
  {
    hide Has, Lacks, ToDict, Strings;
    DictIs(stamp, "capabilities_ack", Obj([Field("accepted", Strings(caps))]), replyTo);
  }

  /** The invoke names the operation, its arguments and the time it is given. */
  lemma {:induction false} InvokeMessageIs(stamp: Stamp, op: string, args: Value, timeoutMs: int)
    returns (payload: Value)
    ensures var m := InvokeMessage(stamp, op, args, timeoutMs);
            && Envelope(m, stamp, "invoke") && Lacks(m, "replyTo") && Has(m, "payload", payload) && Sized(payload, 3)
            && Has(payload, "op", Str(op)) && Has(payload, "args", args) && Has(payload, "timeoutMs", Num(timeoutMs))
  {
    assert |"op"| == 2 && |"args"| == 4 && |"timeoutMs"| == 9;
    hide Has, Lacks, ToDict;
    payload := Obj([Field("op", Str(op)), Field("args", args), Field("timeoutMs", Num(timeoutMs))]);
    DictIs(stamp, "invoke", payload, Null);
    HasAt(payload.fields, 0);
    HasAt(payload.fields, 1);
    HasAt(payload.fields, 2);
  }

  // ---------- what the runner makes of a message ----------

  /** An envelope has the five keys, and this version. */
  lemma {:induction false} IsEnvelopeIff(msg: Value)
    ensures IsEnvelope(msg) <==>
            && Has(msg, "v", Str("ipc.v0"))
            && forall i :: 0 <= i < 5 ==> !Lacks(msg, ["v", "id", "ts", "type", "payload"][i])
  {
    hide Find;
    var keys := ["v", "id", "ts", "type", "payload"];
    assert keys[0] == "v" && keys[1] == "id" && keys[2] == "ts" && keys[3] == "type" && keys[4] == "payload";
  }

  /** What a message does to the wait of `invoke`: a broken envelope fails; what replies to something
    else is passed over; a result ends it with its payload, an error fails, and so does any other
    reply once the time is over. */
  lemma {:induction false} InvokeOnIs(msg: Value, id: string, late: bool)
    ensures InvokeOn(msg, id, late) ==
            if !IsEnvelope(msg) then Some(Failed(BadEnvelope))
            else if !Has(msg, "replyTo", Str(id)) then None
            else if Has(msg, "type", Str("result")) then Some(IpcRunner.Success(Find(msg.fields, "payload").value))
            else if Has(msg, "type", Str("error")) then Some(Failed(AdapterError))
            else if late then Some(Failed(TimedOut)) else None
  {
    hide Find;
  }

  /** What a message does to the handshake. */
  lemma {:induction false} HandshakeOnMessage(msg: Value)
    ensures HandshakeOn(msg) ==
            if !IsEnvelope(msg) then Some(Failed(BadEnvelope))
            else if Has(msg, "type", Str("capabilities")) then
              Some(IpcRunner.Success(Find(msg.fields, "payload").value))
            else if Has(msg, "type", Str("error")) then Some(Failed(AdapterError)) else None
  {
    assert |"capabilities"| == 12 && |"hello_ack"| == 9 && |"error"| == 5;
    hide Find;
  }

  // ---------- what an adapter sends ----------

  lemma {:induction false} ReplyIs(stamp: Stamp, kind: string, replyTo: Value, payload: Value)
    ensures var m := Reply(stamp, kind, replyTo, payload);
            Envelope(m, stamp, kind) && Has(m, "payload", payload) && Has(m, "replyTo", replyTo)
  {
    ReplyFields(stamp, kind, replyTo, payload);
    hide Find;
  }

  lemma {:induction false} HelloAckIs(stamp: Stamp, replyTo: Value)
    ensures var m := HelloAck(stamp, replyTo);
            && Envelope(m, stamp, "hello_ack") && Has(m, "replyTo", replyTo)
            && Has(m, "payload", Obj([Field("role", Str("adapter")), Field("selected", Str("ipc.v0"))]))
  {
    hide Has;
    ReplyIs(stamp, "hello_ack", replyTo, Obj([Field("role", Str("adapter")), Field("selected", Str("ipc.v0"))]));
  }

  /** A result says that all is well, and carries the data. */
  lemma {:induction false} ResultIs(stamp: Stamp, replyTo: Value, data: Value) returns (payload: Value)
    ensures var m := Result(stamp, replyTo, data);
            && Envelope(m, stamp, "result") && Has(m, "replyTo", replyTo) && Has(m, "payload", payload)
            && Sized(payload, 2) && Has(payload, "ok", Bool(true)) && Has(payload, "data", data)
  {
    assert |"ok"| == 2 && |"data"| == 4;
    hide Has, Reply;
    payload := Obj([Field("ok", Bool(true)), Field("data", data)]);
    ReplyIs(stamp, "result", replyTo, payload);
    HasAt(payload.fields, 0);
    HasAt(payload.fields, 1);
  }

  /** An error has its code and message, is not to be retried, has details when there are any, and
    replies to what it is told to, if to anything. */
  ghost predicate SaysError(m: Value, stamp: Stamp, replyTo: Value, code: string, message: string,
                            details: Option<Value>) {
    && Envelope(m, stamp, "error")
    && (if replyTo.Truthy() then Has(m, "replyTo", replyTo) else Lacks(m, "replyTo"))
    && exists payload :: Has(m, "payload", payload) && ErrorPayload(payload, code, message, details)
  }

  ghost predicate ErrorPayload(payload: Value, code: string, message: string, details: Option<Value>) {
    && Has(payload, "code", Str(code)) && Has(payload, "message", Str(message))
    && Has(payload, "retryable", Bool(false))
    && Sized(payload, if details.Some? then 4 else 3)
    && (details.Some? ==> Has(payload, "details", details.value))
  }

  lemma {:induction false} ErrorIs(stamp: Stamp, replyTo: Value, code: string, message: string, details: Option<Value>)
    ensures SaysError(ErrorMessage(stamp, replyTo, code, message, details), stamp, replyTo, code, message, details)
  {
    assert |"code"| == 4 && |"message"| == 7 && |"retryable"| == 9 && "details"[0] != "message"[0] && |"details"| == 7;
    hide Has, Lacks, ToDict, Envelope;
    var payload := Obj([Field("code", Str(code)), Field("message", Str(message)), Field("retryable", Bool(false))] +
                       if details.Some? then [Field("details", details.value)] else []);
    DictIs(stamp, "error", payload, replyTo);
    HasAt(payload.fields, 0);
    HasAt(payload.fields, 1);
    HasAt(payload.fields, 2);
    if details.Some? { HasAt(payload.fields, 3); }
    assert ErrorPayload(payload, code, message, details);
  }

  // ---------- the capabilities ----------

  /** A capability as it is announced. */
  ghost predicate Announces(v: Value, name: string, effects: string, timeout: int) {
    && Has(v, "name", Str(name)) && Has(v, "sideEffects", Str(effects))
    && Has(v, "timeouts", Obj([Field("defaultMs", Num(timeout))]))
  }

  /** ... and reached over TriTRPC by this method. */
  ghost predicate Reaches(v: Value, method_: string) {
    Has(v, "remote", Obj([Field("protocol", Str("tritrpc")), Field("method", Str(method_))]))
  }

  lemma {:induction false} CapabilityNames()
    ensures var keys := ["name", "sideEffects", "timeouts", "remote", "skeletonMode", "wrapper", "network"];
            forall i, j :: 0 <= i < j < 7 ==> keys[i] != keys[j]
  {
    var keys := ["name", "sideEffects", "timeouts", "remote", "skeletonMode", "wrapper", "network"];
    assert |keys[0]| == 4 && |keys[1]| == 11 && |keys[2]| == 8 && |keys[3]| == 6 && |keys[4]| == 12;
    assert |keys[5]| == 7 && |keys[6]| == 7 && keys[5][0] != keys[6][0];
  }

  lemma {:induction false} CapabilityIs(name: string, effects: string, timeout: int, more: seq<Field>)
    requires |more| <= 3 && forall i :: 0 <= i < |more| ==>
      more[i].key == (if i == 0 then "remote" else if i == 2 then "network" else more[i].key)
    requires |more| > 1 ==> more[1].key == "skeletonMode" || more[1].key == "wrapper"
    ensures var v := Capability(name, effects, timeout, more);
            && Announces(v, name, effects, timeout) && Sized(v, 3 + |more|)
            && forall i :: 0 <= i < |more| ==> Has(v, more[i].key, more[i].value)
  {
    CapabilityNames();
    hide Has;
    var keys := ["name", "sideEffects", "timeouts", "remote", "skeletonMode", "wrapper", "network"];
    assert keys[0] == "name" && keys[1] == "sideEffects" && keys[2] == "timeouts" && keys[3] == "remote";
    assert keys[4] == "skeletonMode" && keys[5] == "wrapper" && keys[6] == "network";
    var fields := Capability(name, effects, timeout, more).fields;
    HasAt(fields, 0);
    HasAt(fields, 1);
    HasAt(fields, 2);
    forall i | 0 <= i < |more| ensures Has(Obj(fields), more[i].key, more[i].value) {
      assert fields[i + 3] == more[i];
      HasAt(fields, i + 3);
    }
  }

  /** Each adapter announces itself and exactly the operations it has. */
  lemma {:induction false} CapabilitiesAre(kind: Kind, stamp: Stamp) returns (payload: Value)
    ensures var m := Capabilities(kind, stamp);
            && Envelope(m, stamp, "capabilities") && Lacks(m, "replyTo") && Has(m, "payload", payload)
            && Sized(payload, 2)
            && Has(payload, "capabilities", Arr(CapabilityList(kind)))
            && Has(payload, "adapter", Obj(
              if kind.Caps? then [Field("name", Str("caps-adapter")), Field("version", Str("0.1.0"))]
              else [Field("name", Str("tritrpc-bridge-adapter")), Field("version", Str("0.3.0"))]))
    ensures var list := CapabilityList(kind);
            if kind.Caps? then |list| == 1 && Announces(list[0], "text.caps", "none", 10000) && Sized(list[0], 3)
            else
              && |list| == 3
              && Announces(list[0], "remote.echo", "network", 10000) && Reaches(list[0], "echo")
              && Has(list[0], "skeletonMode", Bool(true))
              && Announces(list[1], "tritrpc.fixture.verify", "filesystem", 30000) && Reaches(list[1], "fixture.verify")
              && Has(list[1], "wrapper", Str("tools/run-tritrpc-rust-cli-check"))
              && Has(list[1], "network", Bool(false))
              && Announces(list[2], "tritrpc.frame.pack", "filesystem", 30000) && Reaches(list[2], "frame.pack")
              && Has(list[2], "wrapper", Str("tools/run-tritrpc-frame-pack-check"))
              && Has(list[2], "network", Bool(false))
  {
    assert |"adapter"| == 7 && |"capabilities"| == 12;
    hide Has, Lacks, ToDict, Capability, Announces;
    payload := CapabilitiesOf(kind);
    DictIs(stamp, "capabilities", payload, Null);
    HasAt(payload.fields, 0);
    HasAt(payload.fields, 1);
    CapabilityIs("text.caps", "none", 10000, []);
    BridgeCapabilities();
  }

  lemma {:induction false} BridgeCapabilities()
    ensures var list := CapabilityList(Bridge);
            && |list| == 3
            && Announces(list[0], "remote.echo", "network", 10000) && Reaches(list[0], "echo")
            && Has(list[0], "skeletonMode", Bool(true))
            && Announces(list[1], "tritrpc.fixture.verify", "filesystem", 30000) && Reaches(list[1], "fixture.verify")
            && Has(list[1], "wrapper", Str("tools/run-tritrpc-rust-cli-check")) && Has(list[1], "network", Bool(false))
            && Announces(list[2], "tritrpc.frame.pack", "filesystem", 30000) && Reaches(list[2], "frame.pack")
            && Has(list[2], "wrapper", Str("tools/run-tritrpc-frame-pack-check"))
            && Has(list[2], "network", Bool(false))
  {
    hide Has, Capability, Announces;
    var echo := [Remote("echo"), Field("skeletonMode", Bool(true))];
    var verify := [Remote("fixture.verify"), Field("wrapper", Str("tools/run-tritrpc-rust-cli-check")),
                   Field("network", Bool(false))];
    var pack := [Remote("frame.pack"), Field("wrapper", Str("tools/run-tritrpc-frame-pack-check")),
                 Field("network", Bool(false))];
    CapabilityIs("remote.echo", "network", 10000, echo);
    CapabilityIs("tritrpc.fixture.verify", "filesystem", 30000, verify);
    CapabilityIs("tritrpc.frame.pack", "filesystem", 30000, pack);
    assert echo[0].key == verify[0].key == pack[0].key == "remote";
    assert verify[1].key == pack[1].key == "wrapper" && verify[2].key == pack[2].key == "network";
  }

  // ---------- the wrapper operations ----------

  /** What is told of a wrapper's run: the command with its secrets redacted, how it ended, what it
    wrote to which stream, where its receipt is and in which mode it ran, and on success the receipt. */
  ghost predicate Reports(world: World, command: Command, ran: Process, data: Value)
    requires command.Command? && ran.Ran?
  {
    && (exists shown :: Shows(shown, command.cmd) && Has(data, "command", shown))
    && Has(data, "exitCode", Num(ran.exitCode)) && Has(data, "stdout", Str(ran.stdout))
    && Has(data, "stderr", Str(ran.stderr)) && Has(data, "receipt", Str(Text(world, command.receipt)))
    && Has(data, "mode", Str(if command.executes then "execute" else "dry-run"))
    && Has(data, "ok", Bool(ran.exitCode == 0))
    && (if ran.exitCode == 0 then Has(data, "receiptPayload", ran.receipt) else Lacks(data, "receiptPayload"))
  }

  lemma {:induction false} ReportKeys()
    ensures var keys := ["command", "exitCode", "stdout", "stderr", "receipt", "mode", "receiptPayload", "ok"];
            forall i, j :: 0 <= i < j < 8 ==> keys[i] != keys[j]
  {
    var keys := ["command", "exitCode", "stdout", "stderr", "receipt", "mode", "receiptPayload", "ok"];
    assert |keys[0]| == 7 && |keys[1]| == 8 && |keys[2]| == 6 && |keys[3]| == 6 && |keys[4]| == 7 && |keys[5]| == 4;
    assert |keys[6]| == 14 && |keys[7]| == 2 && keys[0][0] != keys[4][0] && keys[2][3] != keys[3][3];
  }

  lemma {:induction false} WrapperReports(world: World, command: Command, ran: Process)
    requires command.Command? && ran.Ran?
    ensures Reports(world, command, ran, WrapperData(world, command, ran))
  {
    ReportKeys();
    hide Has, Lacks, Strings, Redact, Text, Shows;
    RedactedShows(command.cmd);
    var keys := ["command", "exitCode", "stdout", "stderr", "receipt", "mode", "receiptPayload", "ok"];
    assert keys[0] == "command" && keys[1] == "exitCode" && keys[2] == "stdout" && keys[3] == "stderr";
    assert keys[4] == "receipt" && keys[5] == "mode" && keys[6] == "receiptPayload" && keys[7] == "ok";
    var fields := WrapperData(world, command, ran).fields;
    HasAt(fields, 0);
    assert Shows(Strings(Redact(command.cmd)), command.cmd)
      && Has(Obj(fields), "command", Strings(Redact(command.cmd)));
    HasAt(fields, 1);
    HasAt(fields, 2);
    HasAt(fields, 3);
    HasAt(fields, 4);
    HasAt(fields, 5);
    HasAt(fields, 6);
    if ran.exitCode == 0 { HasAt(fields, 7); } else { LacksKey(fields, "receiptPayload"); }
  }

  /** What a wrapper operation comes to: a command that could not be made or run is refused with the
    reason, one that failed with the report of its run; one that succeeded yields its report. */
  ghost predicate ComesTo(world: World, command: Command, code: string, failure: string, reaction: Reaction) {
    match command
    case NoCommand(reason) => reaction == Refusal(code, reason, None)
    case Command(cmd, _, _) =>
      match world.process(cmd)
      case NotRun(reason) => reaction == Refusal(code, reason, None)
      case Ran(exitCode, out, err, receipt) =>
        var ran := Ran(exitCode, out, err, receipt);
        if exitCode == 0 then reaction.Data? && Reports(world, command, ran, reaction.data)
        else
          && reaction.Refusal? && reaction.code == code && reaction.message == failure
          && reaction.details.Some? && Reports(world, command, ran, reaction.details.value)
  }

  lemma {:induction false} WrappedComesTo(world: World, command: Command, code: string, failure: string)
    ensures ComesTo(world, command, code, failure, Wrapped(world, command, code, failure))
  {
    hide WrapperData, Reports;
    if command.Command? && world.process(command.cmd).Ran? {
      WrapperReports(world, command, world.process(command.cmd));
    }
  }

  // ---------- what an adapter makes of a message ----------

  /** What an invoke comes to, operation by operation. */
  ghost predicate Performs(world: World, kind: Kind, op: Value, args: Value, reaction: Reaction) {
    if kind.Caps? then
      if op != Str("text.caps") then
        reaction == Refusal("ADAPTER_NO_SUCH_OP", "unknown op", Some(Obj([Field("op", op)])))
      else
        args.Obj? &&
        match Find(args.fields, "text")
        case Some(Str(text)) => reaction == Data(Obj([Field("text", Str(world.upper(text)))]))
        case _ => reaction == Refusal("ADAPTER_BAD_INPUT", "text must be string", None)
    else if op == Str("remote.echo") then
      && reaction.Data? && Sized(reaction.data, 4) && Has(reaction.data, "skeletonMode", Bool(true))
      && Has(reaction.data, "transport", Str("tritrpc")) && Has(reaction.data, "method", Str("echo"))
      && Has(reaction.data, "args", args)
    else if op == Str("tritrpc.fixture.verify") then
      ComesTo(world, VerifyCommand(world, args), "TRITRPC_FIXTURE_VERIFY_FAILED", "fixture verify wrapper failed",
        reaction)
    else if op == Str("tritrpc.frame.pack") then
      ComesTo(world, PackCommand(world, args), "TRITRPC_FRAME_PACK_FAILED", "frame pack wrapper failed", reaction)
    else reaction == Refusal("ADAPTER_NO_SUCH_OP", "unknown op", Some(Obj([Field("op", op)])))
  }

  lemma {:induction false} EchoIs(args: Value)
    ensures var data := Echo(args);
            && Sized(data, 4) && Has(data, "skeletonMode", Bool(true)) && Has(data, "transport", Str("tritrpc"))
            && Has(data, "method", Str("echo")) && Has(data, "args", args)
  {
    assert |"skeletonMode"| == 12 && |"transport"| == 9 && |"method"| == 6 && |"args"| == 4;
    hide Has;
    HasAt(Echo(args).fields, 0);
    HasAt(Echo(args).fields, 1);
    HasAt(Echo(args).fields, 2);
    HasAt(Echo(args).fields, 3);
  }

  /** An operation does what it is there for; only text.caps on arguments that are no object raises. */
  lemma {:induction false} OperateIs(world: World, kind: Kind, op: Value, args: Value)
    ensures match Operate(world, kind, op, args)
            case Some(reaction) => Performs(world, kind, op, args, reaction)
            case None => kind.Caps? && op == Str("text.caps") && !args.Obj?
  {
    hide Wrapped, ComesTo, VerifyCommand, PackCommand, Has, Find, Echo;
    EchoIs(args);
    WrappedComesTo(world, VerifyCommand(world, args), "TRITRPC_FIXTURE_VERIFY_FAILED", "fixture verify wrapper failed");
    WrappedComesTo(world, PackCommand(world, args), "TRITRPC_FRAME_PACK_FAILED", "frame pack wrapper failed");
  }

  /** The message that tells of a reaction. */
  ghost predicate Tells(m: Value, stamp: Stamp, id: Value, reaction: Reaction) {
    match reaction
    case Data(data) =>
      Envelope(m, stamp, "result") && Has(m, "replyTo", id) &&
      exists payload :: Has(m, "payload", payload) && Has(payload, "ok", Bool(true)) && Has(payload, "data", data)
    case Refusal(code, message, details) => SaysError(m, stamp, id, code, message, details)
  }

  lemma {:induction false} ReactionTells(stamp: Stamp, id: Value, reaction: Reaction)
    ensures Tells(ReactionMessage(stamp, id, reaction), stamp, id, reaction)
  {
    hide Has, SaysError, Envelope, Result, ErrorMessage;
    match reaction
    case Data(data) => var payload := ResultIs(stamp, id, data);
    case Refusal(code, message, details) => ErrorIs(stamp, id, code, message, details);
  }

  /** The value under a key, null when there is none. */
  function Got(msg: Value, key: string): Value {
    if msg.Obj? then match Find(msg.fields, key) case Some(v) => v case None => Null else Null
  }

  /** What an adapter does with a message. What is no object is fatal; another version is refused, and
    ends it with a mismatch; a hello is acknowledged and followed by the capabilities; an invoke is
    refused before that, and otherwise performed with the operation and the arguments of its payload;
    everything else is passed over. */
  ghost predicate Handles(world: World, kind: Kind, st: State, msg: Value, turn: Turn) {
    var id, a, b := Got(msg, "id"), world.stamps(st.count), world.stamps(st.count + 1);
    if !msg.Obj? then turn == Turn(st, [], Some(IpcAdapters.Crash))
    else if Got(msg, "v") != Str("ipc.v0") then
      && turn.stop == Some(Mismatch) && |turn.sent| == 1 && turn.state.count == st.count + 1
      && SaysError(turn.sent[0], a, Null, "IPC_PROTO_MISMATCH", "unsupported protocol",
                   Some(Obj([Field("got", Got(msg, "v"))])))
    else if Got(msg, "type") == Str("hello") then
      && turn.stop.None? && turn.state.negotiated && (kind.Caps? ==> turn.state.capsSent)
      && turn.state.count == st.count + 2 && turn.sent == [HelloAck(a, id), Capabilities(kind, b)]
    else if Got(msg, "type") != Str("invoke") then turn == Turn(st, [], None)
    else if !(st.negotiated && (kind.Caps? ==> st.capsSent)) then
      && turn.stop.None? && turn.state == st.(count := st.count + 1) && |turn.sent| == 1
      && SaysError(turn.sent[0], a, id, "IPC_STATE", "invoke before handshake", None)
    else HandlesInvoke(world, kind, st, id, if Got(msg, "payload").Truthy() then Got(msg, "payload") else Obj([]), turn)
  }

  ghost predicate HandlesInvoke(world: World, kind: Kind, st: State, id: Value, payload: Value, turn: Turn) {
    var args := if Got(payload, "args").Truthy() then Got(payload, "args") else Obj([]);
    || (turn == Turn(st, [], Some(IpcAdapters.Crash))
        && (!payload.Obj? || (kind.Caps? && Got(payload, "op") == Str("text.caps") && !args.Obj?)))
    || (&& payload.Obj? && turn.stop.None? && turn.state == st.(count := st.count + 1) && |turn.sent| == 1
        && exists reaction ::
             && Performs(world, kind, Got(payload, "op"), args, reaction)
             && Tells(turn.sent[0], world.stamps(st.count), id, reaction))
  }

  lemma {:induction false} GotIs(msg: Value, key: string)
    requires msg.Obj?
    ensures Item(msg, key) == Got(msg, key)
  {
  }

  lemma {:induction false} OnMessageHandles(world: World, kind: Kind, st: State, msg: Value)
    ensures Handles(world, kind, st, msg, OnMessage(world, kind, st, msg))
  {
    hide HelloAck, Capabilities, ErrorMessage, SaysError, OnInvoke, Find;
    var a := world.stamps(st.count);
    if msg.Obj? {
      assert |"hello"| != |"invoke"|;
      GotIs(msg, "v");
      GotIs(msg, "type");
      GotIs(msg, "id");
      ErrorIs(a, Null, "IPC_PROTO_MISMATCH", "unsupported protocol", Some(Obj([Field("got", Item(msg, "v"))])));
      if Item(msg, "v") == Str(IPC_VERSION) && Item(msg, "type") == Str("invoke") {
        hide Handles, Item;
        OnInvokeHandles(world, kind, st, msg);
      }
    }
  }

  lemma {:induction false} OnInvokeHandles(world: World, kind: Kind, st: State, msg: Value)
    requires msg.Obj? && Got(msg, "v") == Str("ipc.v0") && Got(msg, "type") == Str("invoke")
    ensures Handles(world, kind, st, msg, OnInvoke(world, kind, st, msg))
  {
    assert |"hello"| != |"invoke"|;
    hide HelloAck, Capabilities, ErrorMessage, SaysError, HandlesInvoke, Operate, Got;
    GotIs(msg, "id");
    GotIs(msg, "payload");
    ErrorIs(world.stamps(st.count), Got(msg, "id"), "IPC_STATE", "invoke before handshake", None);
    if Ready(kind, st) { ReadyHandles(world, kind, st, msg, OrEmpty(Got(msg, "payload"))); }
  }

  lemma {:induction false} ReadyHandles(world: World, kind: Kind, st: State, msg: Value, payload: Value)
    requires Ready(kind, st) && msg.Obj? && payload == OrEmpty(Got(msg, "payload"))
    ensures HandlesInvoke(world, kind, st, Got(msg, "id"), payload, OnInvoke(world, kind, st, msg))
  {
    hide Operate, Performs, ReactionMessage, Tells, Got, Item;
    var a := world.stamps(st.count);
    GotIs(msg, "id");
    GotIs(msg, "payload");
    if payload.Obj? {
      GotIs(payload, "op");
      GotIs(payload, "args");
      var op, args := Got(payload, "op"), OrEmpty(Got(payload, "args"));
      OperateIs(world, kind, op, args);
      if Operate(world, kind, op, args).Some? {
        var reaction := Operate(world, kind, op, args).value;
        ReactionTells(a, Got(msg, "id"), reaction);
        var turn := OnInvoke(world, kind, st, msg);
        assert turn == Turn(st.(count := st.count + 1), [ReactionMessage(a, Got(msg, "id"), reaction)], None);
        assert Tells(turn.sent[0], a, Got(msg, "id"), reaction);
      }
    }
  }
}
