/** The IPC v0 runner: what it sends, what it makes of any bytes an adapter may write, and the
  transcript it keeps. */
module IpcRunner {
  import opened Sequences
  import opened Json
  import opened Utf8
  import opened Ndjson

  const IPC_VERSION := "ipc.v0"

  /** The fresh id and the time of a message: `new_id()` and `now_rfc3339()`. */
  datatype Stamp = Stamp(id: string, ts: string)

  /** `IPCMessage.to_dict`. */
  function ToDict(stamp: Stamp, kind: string, payload: Value, replyTo: Value): Value {
    Obj([Field("v", Str(IPC_VERSION)), Field("id", Str(stamp.id)), Field("ts", Str(stamp.ts)),
         Field("type", Str(kind)), Field("payload", payload)] +
        if replyTo.Truthy() then [Field("replyTo", replyTo)] else [])
  }

  function Strings(texts: seq<string>): Value {
    Arr(seq(|texts|, i requires 0 <= i < |texts| => Str(texts[i])))
  }

  function Hello(stamp: Stamp, caps: seq<string>, pid: nat): Value {
    ToDict(stamp, "hello",
           Obj([Field("role", Str("runner")), Field("protocols", Strings([IPC_VERSION])),
                Field("requestedCapabilities", Strings(caps)), Field("session", Obj([Field("pid", Num(pid))]))]),
           Null)
  }

  function CapabilitiesAck(stamp: Stamp, caps: seq<string>, replyTo: Value): Value {
    ToDict(stamp, "capabilities_ack", Obj([Field("accepted", Strings(caps))]), replyTo)
  }

  function InvokeMessage(stamp: Stamp, op: string, args: Value, timeoutMs: int): Value {
    ToDict(stamp, "invoke", Obj([Field("op", Str(op)), Field("args", args), Field("timeoutMs", Num(timeoutMs))]), Null)
  }

  /** A line of the transcript: written by the runner, or read from the adapter. */
  datatype Entry = Sent(line: string) | Got(line: string)

  function Render(log: seq<Entry>): string {
    if log == [] then "" else log[0].line + "\n" + Render(log[1..])
  }

  // ---------- reading ----------

  /** One turn of the reader's generator. */
  datatype Pull = Pull(msg: Option<Value>, log: seq<Entry>, rest: seq<Byte>)

  function PullNext(input: seq<Byte>): (p: Pull)
    ensures |p.rest| <= |input| && (p.msg.Some? ==> |p.rest| < |input|)
    decreases |input|
  {
    if input == [] then Pull(None, [], [])
    else
      var raw := FirstLine(input);
      var rest := input[|raw|..];
      match ReadLine(raw)
      case Skipped => PullNext(rest)
      case Noise(text) => (var p := PullNext(rest); Pull(p.msg, [Got(text)] + p.log, p.rest))
      case Message(text, v) => Pull(Some(v), [Got(text)], rest)
  }

  /** `require_envelope` passes. */
  predicate IsEnvelope(msg: Value) {
    msg.Obj?
    && Find(msg.fields, "v") == Some(Str(IPC_VERSION))
    && Find(msg.fields, "id").Some? && Find(msg.fields, "ts").Some?
    && Find(msg.fields, "type").Some? && Find(msg.fields, "payload").Some?
  }

  predicate HasType(msg: Value, kind: string) {
    msg.Obj? && Find(msg.fields, "type") == Some(Str(kind))
  }

  predicate RepliesTo(msg: Value, id: string) {
    msg.Obj? && Find(msg.fields, "replyTo") == Some(Str(id))
  }

  function Payload(msg: Value): Value {
    if msg.Obj? then match Find(msg.fields, "payload") case Some(v) => v case None => Null else Null
  }

  function IdOf(msg: Value): Value {
    if msg.Obj? then match Find(msg.fields, "id") case Some(v) => v case None => Null else Null
  }

  datatype Failure = BadEnvelope | AdapterError | NoCapabilities | TimedOut | AdapterEnded

  datatype Outcome = Success(payload: Value) | Failed(why: Failure)

  /** The effect of one call: its outcome, what was written to the transcript and to the adapter,
    and the input not yet read. */
  datatype Run = Run(outcome: Outcome, log: seq<Entry>, sent: seq<Value>, rest: seq<Byte>)

  function After(log: seq<Entry>, run: Run): Run { run.(log := log + run.log) }

  /** What a message means during the handshake; `None` is to go on reading. */
  function HandshakeOn(msg: Value): Option<Outcome> {
    if !IsEnvelope(msg) then Some(Failed(BadEnvelope))
    else if HasType(msg, "hello_ack") then None
    else if HasType(msg, "capabilities") then Some(Success(Payload(msg)))
    else if HasType(msg, "error") then Some(Failed(AdapterError))
    else None
  }

  /** The loop of `handshake`. A null payload is acknowledged and then refused. */
  function HandshakeFrom(input: seq<Byte>, caps: seq<string>, ack: Stamp): Run
    decreases |input|
  {
    var p := PullNext(input);
    if p.msg.None? then Run(Failed(NoCapabilities), p.log, [], p.rest)
    else
      match HandshakeOn(p.msg.value)
      case None => After(p.log, HandshakeFrom(p.rest, caps, ack))
      case Some(Failed(why)) => Run(Failed(why), p.log, [], p.rest)
      case Some(Success(payload)) =>
        var reply := CapabilitiesAck(ack, caps, IdOf(p.msg.value));
        Run(if payload.Null? then Failed(NoCapabilities) else Success(payload), p.log + [Sent(LineOf(reply))],
          [reply], p.rest)
  }

  /** What a message means to `invoke`; `late` is whether the clock has run out when it is looked at. */
  function InvokeOn(msg: Value, id: string, late: bool): Option<Outcome> {
    if !IsEnvelope(msg) then Some(Failed(BadEnvelope))
    else if !RepliesTo(msg, id) then None
    else if HasType(msg, "result") then Some(Success(Payload(msg)))
    else if HasType(msg, "error") then Some(Failed(AdapterError))
    else if late then Some(Failed(TimedOut))
    else None
  }

  /** The loop of `invoke`, from the `k`-th message on. */
  function InvokeFrom(input: seq<Byte>, id: string, late: nat -> bool, k: nat): Run
    decreases |input|
  {
    var p := PullNext(input);
    if p.msg.None? then Run(Failed(AdapterEnded), p.log, [], p.rest)
    else
      match InvokeOn(p.msg.value, id, late(k))
      case None => After(p.log, InvokeFrom(p.rest, id, late, k + 1))
      case Some(outcome) => Run(outcome, p.log, [], p.rest)
  }

  function Handshake(input: seq<Byte>, caps: seq<string>, pid: nat, hello: Stamp, ack: Stamp): Run {
    var msg := Hello(hello, caps, pid);
    var run := HandshakeFrom(input, caps, ack);
    run.(log := [Sent(LineOf(msg))] + run.log, sent := [msg] + run.sent)
  }

  function Invoke(input: seq<Byte>, request: Stamp, op: string, args: Value, timeoutMs: int, late: nat -> bool): Run {
    var msg := InvokeMessage(request, op, args, timeoutMs);
    var run := InvokeFrom(input, request.id, late, 0);
    run.(log := [Sent(LineOf(msg))] + run.log, sent := [msg] + run.sent)
  }

  // ---------- the runner's objects ----------

  class Transcript {
    var text: string
    constructor ()
      ensures text == ""
    {
      text := "";
    }
  }

  class NDJSONWriter {
    var sent: seq<Byte>
    const transcript: Transcript

    constructor (transcript: Transcript)
      ensures sent == [] && this.transcript == transcript
    {
      sent, this.transcript := [], transcript;
    }

    method Send(msg: Value)
      modifies this, transcript
      ensures sent == old(sent) + Frame(msg)
      ensures transcript.text == old(transcript.text) + Render([Sent(LineOf(msg))])
    {
      var line := LineOf(msg);
      sent := sent + Encode(line + "\n");
      transcript.text := transcript.text + (line + "\n");
      RenderOne(Sent(line));
    }
  }

  class NDJSONReader {
    var input: seq<Byte>
    const transcript: Transcript

    constructor (input: seq<Byte>, transcript: Transcript)
      ensures this.input == input && this.transcript == transcript
    {
      this.input, this.transcript := input, transcript;
    }

    /** One step of the iterator: the next message, or none when the stream is over. */
    method Next() returns (msg: Option<Value>)
      modifies this, transcript
      ensures var p := PullNext(old(input)); msg == p.msg && input == p.rest
      ensures transcript.text == old(transcript.text) + Render(PullNext(old(input)).log)
    {
      hide ReadLine, FirstLine, RawLines, Render;
      ghost var log: seq<Entry> := [];
      RenderNothing();
      while input != []
        invariant var p, q := PullNext(old(input)), PullNext(input);
                  p == Pull(q.msg, log + q.log, q.rest)
        invariant transcript.text == old(transcript.text) + Render(log)
        decreases |input|
      {
        ghost var before := input;
        var raw := FirstLine(input);
        FirstLineFacts(input);
        input := input[|raw|..];
        match ReadLine(raw) {
          case Skipped =>
          case Noise(text) =>
            transcript.text := transcript.text + (text + "\n");
            RenderMore(log, Got(text));
            Associative(log, [Got(text)], PullNext(input).log);
            log := log + [Got(text)];
          case Message(text, v) =>
            transcript.text := transcript.text + (text + "\n");
            RenderMore(log, Got(text));
            return Some(v);
        }
      }
      assert log + [] == log;
      return None;
    }
  }

  lemma {:induction false} RenderNothing()
    ensures Render([]) == ""
  {
  }

  lemma {:induction false} FirstLineFacts(input: seq<Byte>)
    requires input != []
    ensures 1 <= |FirstLine(input)| <= |input|
  {
  }

  lemma {:induction false} RenderOne(e: Entry)
    ensures Render([e]) == e.line + "\n"
  {
    assert [e][1..] == [];
  }

  lemma {:induction false} RenderAppend(a: seq<Entry>, b: seq<Entry>)
    ensures Render(a + b) == Render(a) + Render(b)
  {
    if a == [] {
      assert a + b == b;
    } else {
      assert (a + b)[1..] == a[1..] + b;
      RenderAppend(a[1..], b);
    }
  }

  lemma {:induction false} RenderMore(a: seq<Entry>, e: Entry)
    ensures Render(a + [e]) == Render(a) + (e.line + "\n")
  {
    RenderAppend(a, [e]);
    RenderOne(e);
  }

  lemma {:induction false} FramesOne(v: Value)
    ensures Frames([v]) == Frame(v)
  {
    hide Frame;
    assert [v][1..] == [];
  }

  lemma {:induction false} FramesAppend(a: seq<Value>, b: seq<Value>)
    ensures Frames(a + b) == Frames(a) + Frames(b)
  {
    hide Frame;
    if a == [] {
      assert a + b == b;
    } else {
      assert (a + b)[1..] == a[1..] + b;
      FramesAppend(a[1..], b);
      Associative(Frame(a[0]), Frames(a[1..]), Frames(b));
    }
  }

  /** `handshake`, on an adapter that writes `reader.input`. */
  method DoHandshake(writer: NDJSONWriter, reader: NDJSONReader, caps: seq<string>, pid: nat, hello: Stamp, ack: Stamp)
    returns (outcome: Outcome)
    requires writer.transcript == reader.transcript
    modifies writer, reader, writer.transcript
    ensures var run := Handshake(old(reader.input), caps, pid, hello, ack);
            && outcome == run.outcome && reader.input == run.rest
            && writer.sent == old(writer.sent) + Frames(run.sent)
            && writer.transcript.text == old(writer.transcript.text) + Render(run.log)
  {
    hide Frame, LineOf, PullNext, HandshakeOn, Hello, CapabilitiesAck, Frames, Render;
    var first := Hello(hello, caps, pid);
    ghost var whole := Handshake(reader.input, caps, pid, hello, ack);
    ghost var log := [Sent(LineOf(first))];
    writer.Send(first);
    FramesOne(first);
    while true
      invariant var run := HandshakeFrom(reader.input, caps, ack);
                whole == Run(run.outcome, log + run.log, [first] + run.sent, run.rest)
      invariant writer.transcript.text == old(writer.transcript.text) + Render(log)
      invariant writer.sent == old(writer.sent) + Frames([first])
      decreases |reader.input|
    {
      ghost var p := PullNext(reader.input);
      PullShortens(reader.input);
      var msg := reader.Next();
      RenderAppend(log, p.log);
      Associative(log, p.log, HandshakeFrom(p.rest, caps, ack).log);
      log := log + p.log;
      if msg.None? {
        assert [first] + [] == [first];
        return Failed(NoCapabilities);
      }
      match HandshakeOn(msg.value) {
        case None =>
        case Some(Failed(why)) =>
          assert [first] + [] == [first];
          return Failed(why);
        case Some(Success(payload)) =>
          var reply := CapabilitiesAck(ack, caps, IdOf(msg.value));
          writer.Send(reply);
          Associative(whole.log[..|log| - |p.log|], p.log, [Sent(LineOf(reply))]);
          RenderAppend(log, [Sent(LineOf(reply))]);
          FramesOne(reply);
          FramesAppend([first], [reply]);
          return if payload.Null? then Failed(NoCapabilities) else Success(payload);
      }
    }
  }

  /** `invoke`; `late(k)` is whether the clock has run out when the `k`-th message is looked at. */
  method DoInvoke(writer: NDJSONWriter, reader: NDJSONReader, request: Stamp, op: string, args: Value, timeoutMs: int,
                  late: nat -> bool)
    returns (outcome: Outcome)
    requires writer.transcript == reader.transcript
    modifies writer, reader, writer.transcript
    ensures var run := Invoke(old(reader.input), request, op, args, timeoutMs, late);
            && outcome == run.outcome && reader.input == run.rest
            && writer.sent == old(writer.sent) + Frames(run.sent)
            && writer.transcript.text == old(writer.transcript.text) + Render(run.log)
  {
    hide Frame, LineOf, PullNext, InvokeOn, InvokeMessage, Frames, Render;
    var first := InvokeMessage(request, op, args, timeoutMs);
    ghost var whole := Invoke(reader.input, request, op, args, timeoutMs, late);
    ghost var log := [Sent(LineOf(first))];
    writer.Send(first);
    FramesOne(first);
    var k := 0;
    while true
      invariant var run := InvokeFrom(reader.input, request.id, late, k);
                whole == Run(run.outcome, log + run.log, [first] + run.sent, run.rest)
      invariant writer.transcript.text == old(writer.transcript.text) + Render(log)
      invariant writer.sent == old(writer.sent) + Frames([first])
      decreases |reader.input|
    {
      ghost var p := PullNext(reader.input);
      PullShortens(reader.input);
      var msg := reader.Next();
      RenderAppend(log, p.log);
      Associative(log, p.log, InvokeFrom(p.rest, request.id, late, k + 1).log);
      log := log + p.log;
      assert [first] + [] == [first];
      if msg.None? {
        return Failed(AdapterEnded);
      }
      var verdict := InvokeOn(msg.value, request.id, late(k));
      if verdict.Some? {
        return verdict.value;
      }
      k := k + 1;
    }
  }

  lemma {:induction false} PullShortens(input: seq<Byte>)
    ensures PullNext(input).msg.Some? ==> |PullNext(input).rest| < |input|
  {
  }

  /** Handshake, then invoke: the conversation of `main`. */
  function Session(input: seq<Byte>, caps: seq<string>, pid: nat, hello: Stamp, ack: Stamp,
                   request: Stamp, op: string, args: Value, timeoutMs: int, late: nat -> bool): Run
  {
    var shake := Handshake(input, caps, pid, hello, ack);
    if shake.outcome.Failed? then shake
    else
      var call := Invoke(shake.rest, request, op, args, timeoutMs, late);
      Run(call.outcome, shake.log + call.log, shake.sent + call.sent, call.rest)
  }

  method DoSession(writer: NDJSONWriter, reader: NDJSONReader, caps: seq<string>, pid: nat, hello: Stamp, ack: Stamp,
                   request: Stamp, op: string, args: Value, timeoutMs: int, late: nat -> bool)
    returns (outcome: Outcome)
    requires writer.transcript == reader.transcript
    modifies writer, reader, writer.transcript
    ensures var run := Session(old(reader.input), caps, pid, hello, ack, request, op, args, timeoutMs, late);
            && outcome == run.outcome && reader.input == run.rest
            && writer.sent == old(writer.sent) + Frames(run.sent)
            && writer.transcript.text == old(writer.transcript.text) + Render(run.log)
  {
    hide Handshake, Invoke, Frames, Render;
    ghost var shake := Handshake(reader.input, caps, pid, hello, ack);
    outcome := DoHandshake(writer, reader, caps, pid, hello, ack);
    if outcome.Success? {
      ghost var call := Invoke(reader.input, request, op, args, timeoutMs, late);
      outcome := DoInvoke(writer, reader, request, op, args, timeoutMs, late);
      FramesAppend(shake.sent, call.sent);
      RenderAppend(shake.log, call.log);
    }
  }
}
