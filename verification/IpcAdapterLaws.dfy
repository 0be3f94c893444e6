/** Both adapters refine one protocol automaton. */
module IpcAdapterLaws {
  import opened Sequences
  import opened Json
  import Receipts
  import opened JsonCanonical
  import opened Ndjson
  import opened IpcRunner
  import opened IpcAdapters

  // ---------- the automaton ----------

  /** What a message is to the protocol. `Complaint` is an error that replies to nothing. */
  datatype Shape = Acknowledges(to: Value) | Lists | Answers(to: Value, ok: bool) | Complaint | Other

  function ShapeOf(msg: Value): Shape {
    if !msg.Obj? then Other
    else
      var to := Find(msg.fields, "replyTo");
      if HasType(msg, "hello_ack") && to.Some? then Acknowledges(to.value)
      else if HasType(msg, "capabilities") then Lists
      else if HasType(msg, "result") && to.Some? then Answers(to.value, true)
      else if HasType(msg, "error") then (if to.Some? then Answers(to.value, false) else Complaint)
      else Other
  }

  function Shapes(msgs: seq<Value>): seq<Shape> {
    seq(|msgs|, i requires 0 <= i < |msgs| => ShapeOf(msgs[i]))
  }

  /** A message of this protocol version with a nonempty id, and arguments that are an object or nothing. */
  predicate Conforming(msg: Value) {
    && msg.Obj? && Item(msg, "v") == Str(IPC_VERSION)
    && Item(msg, "id").Str? && Item(msg, "id").s != ""
    && OrEmpty(Item(msg, "payload")).Obj?
    && OrEmpty(Item(OrEmpty(Item(msg, "payload")), "args")).Obj?
  }

  predicate IsHello(msg: Value) { HasType(msg, "hello") }

  predicate IsInvoke(msg: Value) { HasType(msg, "invoke") }

  /** One step: from `ready`, reading `msg`, writing `out`. */
  predicate Allowed(ready: bool, msg: Value, ready': bool, out: seq<Shape>) {
    if IsHello(msg) then ready' && out == [Acknowledges(IdOf(msg)), Lists]
    else if IsInvoke(msg) then
      ready' == ready && (out == [Answers(IdOf(msg), false)] || (ready && out == [Answers(IdOf(msg), true)]))
    else ready' == ready && out == []
  }

  ghost predicate Accepts(ready: bool, msgs: seq<Value>, out: seq<Shape>)
    decreases |msgs|, 1
  {
    if msgs == [] then out == []
    else exists ready', k :: 0 <= k <= |out| && AcceptsSplit(ready, msgs, out, ready', k)
  }

  ghost predicate AcceptsSplit(ready: bool, msgs: seq<Value>, out: seq<Shape>, ready': bool, k: nat)
    requires msgs != [] && k <= |out|
    decreases |msgs|, 0
  {
    Allowed(ready, msgs[0], ready', out[..k]) && Accepts(ready', msgs[1..], out[k..])
  }

  // ---------- what the automaton guarantees ----------

  /** The ids answered, in order. */
  function AnsweredIds(out: seq<Shape>): seq<Value> {
    if out == [] then [] else (if out[0].Answers? then [out[0].to] else []) + AnsweredIds(out[1..])
  }

  function InvokeIds(msgs: seq<Value>): seq<Value> {
    if msgs == [] then [] else (if IsInvoke(msgs[0]) then [IdOf(msgs[0])] else []) + InvokeIds(msgs[1..])
  }

  lemma {:induction false} AnsweredAppend(a: seq<Shape>, b: seq<Shape>)
    ensures AnsweredIds(a + b) == AnsweredIds(a) + AnsweredIds(b)
  {
    if a == [] {
      assert a + b == b;
    } else {
      assert (a + b)[1..] == a[1..] + b;
      AnsweredAppend(a[1..], b);
      Associative(if a[0].Answers? then [a[0].to] else [], AnsweredIds(a[1..]), AnsweredIds(b));
    }
  }

  lemma {:induction false} OneAnswer(shape: Shape)
    ensures AnsweredIds([shape]) == if shape.Answers? then [shape.to] else []
  {
    assert [shape][1..] == [];
  }

  lemma {:induction false} NoAnswers(to: Value)
    ensures AnsweredIds([]) == [] && AnsweredIds([Acknowledges(to), Lists]) == []
  {
    OneAnswer(Lists);
    assert [Acknowledges(to), Lists][1..] == [Lists];
  }

  lemma {:induction false} AllowedAnswers(ready: bool, msg: Value, ready': bool, out: seq<Shape>)
    requires Allowed(ready, msg, ready', out)
    ensures AnsweredIds(out) == if IsInvoke(msg) then [IdOf(msg)] else []
  {
    assert IsHello(msg) ==> !IsInvoke(msg) by { DifferentTypes(); }
    hide IsHello, IsInvoke, IdOf, AnsweredIds;
    OneAnswer(Answers(IdOf(msg), true));
    OneAnswer(Answers(IdOf(msg), false));
    NoAnswers(IdOf(msg));
  }

  /** Every invoke is answered by exactly one result or error that replies to it, in order. */
  lemma {:induction false} OneAnswerEach(ready: bool, msgs: seq<Value>, out: seq<Shape>)
    requires Accepts(ready, msgs, out)
    ensures AnsweredIds(out) == InvokeIds(msgs)
    decreases |msgs|
  {
    hide Allowed, IsInvoke, IdOf;
    if msgs != [] {
      var ready', k :| 0 <= k <= |out| && AcceptsSplit(ready, msgs, out, ready', k);
      AllowedAnswers(ready, msgs[0], ready', out[..k]);
      OneAnswerEach(ready', msgs[1..], out[k..]);
      assert out == out[..k] + out[k..];
      AnsweredAppend(out[..k], out[k..]);
    }
  }

  /** No result precedes the acknowledgement of a hello. */
  lemma {:induction false} NoResultBeforeHello(msgs: seq<Value>, out: seq<Shape>, j: nat) returns (i: nat)
    requires Accepts(false, msgs, out) && j < |out| && out[j].Answers? && out[j].ok
    ensures i < j && out[i].Acknowledges?
    decreases |msgs|
  {
    hide IsHello, IsInvoke, IdOf;
    var ready', k :| 0 <= k <= |out| && AcceptsSplit(false, msgs, out, ready', k);
    assert forall n :: 0 <= n < k ==> out[n] == out[..k][n];
    if ready' {
      i := 0;
    } else {
      assert out[k..][j - k] == out[j];
      i := NoResultBeforeHello(msgs[1..], out[k..], j - k);
      assert out[k..][i] == out[k + i];
      i := k + i;
    }
  }

  // ---------- the adapters refine it ----------

  /** The loop over messages; lines that hold none do nothing. */
  function Over(world: World, kind: Kind, st: State, msgs: seq<Value>): Turn
    decreases |msgs|
  {
    if msgs == [] then Turn(st, [], None)
    else
      var turn := OnMessage(world, kind, st, msgs[0]);
      if turn.stop.Some? then turn
      else
        var more := Over(world, kind, turn.state, msgs[1..]);
        Turn(more.state, turn.sent + more.sent, more.stop)
  }

  function MessagesIn(lines: seq<string>): seq<Value> {
    if lines == [] then []
    else (match ReadText(lines[0]) case Message(_, v) => [v] case _ => []) + MessagesIn(lines[1..])
  }

  lemma {:induction false} LinesAreMessages(world: World, kind: Kind, st: State, lines: seq<string>)
    ensures RunFrom(world, kind, st, lines) == Over(world, kind, st, MessagesIn(lines))
    decreases |lines|
  {
    hide OnMessage, ReadText;
    if lines != [] {
      var more := MessagesIn(lines[1..]);
      match ReadText(lines[0])
      case Message(_, v) =>
        assert ([v] + more)[1..] == more;
        LinesAreMessages(world, kind, OnMessage(world, kind, st, v).state, lines[1..]);
      case _ =>
        assert [] + more == more;
        LinesAreMessages(world, kind, st, lines[1..]);
        var rest := RunFrom(world, kind, st, lines[1..]);
        assert [] + rest.sent == rest.sent;
    }
  }

  lemma {:induction false} FindIn(fields: seq<Field>, i: nat)
    requires i < |fields| && forall j :: 0 <= j < i ==> fields[j].key != fields[i].key
    ensures Find(fields, fields[i].key) == Some(fields[i].value)
  {
    if i > 0 {
      assert fields[1..][i - 1] == fields[i];
      FindIn(fields[1..], i - 1);
    }
  }

  lemma {:induction false} KeyNames()
    ensures "v" != "replyTo" && "id" != "replyTo" && "ts" != "replyTo" && "type" != "replyTo" && "payload" != "replyTo"
    ensures "v" != "type" && "id" != "type" && "ts" != "type" && "v" != "id"
    ensures "v" != "payload" && "id" != "payload" && "ts" != "payload" && "type" != "payload" && "replyTo" != "payload"
    ensures "v" != "ts" && "id" != "ts"
  {
    assert |"v"| == 1 && |"id"| == 2 && |"ts"| == 2 && |"type"| == 4 && |"payload"| == 7 && |"replyTo"| == 7;
    assert "id"[0] != "ts"[0] && "payload"[0] != "replyTo"[0];
  }

  /** The envelope of a message built by either builder. */
  lemma {:induction false} ReplyFields(stamp: Stamp, kind: string, replyTo: Value, payload: Value)
    ensures var f := Reply(stamp, kind, replyTo, payload).fields;
            && Find(f, "type") == Some(Str(kind)) && Find(f, "replyTo") == Some(replyTo)
            && Find(f, "payload") == Some(payload)
            && Find(f, "v") == Some(Str(IPC_VERSION)) && Find(f, "id") == Some(Str(stamp.id))
            && Find(f, "ts") == Some(Str(stamp.ts))
  {
    KeyNames();
    hide Find, IPC_VERSION;
    var f := Reply(stamp, kind, replyTo, payload).fields;
    FindIn(f, 0); FindIn(f, 1); FindIn(f, 2); FindIn(f, 3); FindIn(f, 4); FindIn(f, 5);
  }

  lemma {:induction false} DictFields(stamp: Stamp, kind: string, payload: Value, replyTo: Value)
    ensures var f := ToDict(stamp, kind, payload, replyTo).fields;
            && Find(f, "type") == Some(Str(kind)) && Find(f, "payload") == Some(payload)
            && Find(f, "replyTo") == (if replyTo.Truthy() then Some(replyTo) else None)
            && Find(f, "v") == Some(Str(IPC_VERSION)) && Find(f, "id") == Some(Str(stamp.id))
            && Find(f, "ts") == Some(Str(stamp.ts))
  {
    KeyNames();
    hide Find, IPC_VERSION;
    var f := ToDict(stamp, kind, payload, replyTo).fields;
    FindIn(f, 0); FindIn(f, 1); FindIn(f, 2); FindIn(f, 3); FindIn(f, 4);
    if replyTo.Truthy() { FindIn(f, 5); } else { FindNone(f, "replyTo"); }
  }

  lemma {:induction false} TypeNames()
    ensures "hello_ack" != "capabilities" && "hello_ack" != "result" && "hello_ack" != "error"
    ensures "capabilities" != "result" && "capabilities" != "error" && "result" != "error"
  {
    assert |"hello_ack"| == 9 && |"capabilities"| == 12 && |"result"| == 6 && |"error"| == 5;
  }

  lemma {:induction false} ReactionShape(stamp: Stamp, id: Value, reaction: Reaction)
    requires id.Truthy()
    ensures ShapeOf(ReactionMessage(stamp, id, reaction)) == Answers(id, reaction.Data?)
  {
    TypeNames();
    match reaction
    case Data(data) =>
      ReplyFields(stamp, "result", id, Obj([Field("ok", Bool(true)), Field("data", data)]));
      hide Find;
    case Refusal(code, message, details) =>
      ErrorShape(stamp, id, code, message, details);
  }

  lemma {:induction false} ErrorShape(stamp: Stamp, id: Value, code: string, message: string, details: Option<Value>)
    ensures ShapeOf(ErrorMessage(stamp, id, code, message, details)) == if id.Truthy() then Answers(id,
            false) else Complaint
  {
    TypeNames();
    DictFields(stamp, "error", ErrorMessage(stamp, id, code, message, details).fields[4].value, id);
    hide Find;
  }

  lemma {:induction false} HelloShapes(kind: Kind, a: Stamp, b: Stamp, id: Value)
    ensures ShapeOf(HelloAck(a, id)) == Acknowledges(id) && ShapeOf(Capabilities(kind, b)) == Lists
  {
    TypeNames();
    ReplyFields(a, "hello_ack", id, Obj([Field("role", Str("adapter")), Field("selected", Str(IPC_VERSION))]));
    DictFields(b, "capabilities", CapabilitiesOf(kind), Null);
    hide Find, CapabilitiesOf;
  }

  /** With object arguments no operation escapes with an exception. */
  lemma {:induction false} OperateAnswers(world: World, kind: Kind, op: Value, args: Value)
    requires args.Obj?
    ensures Operate(world, kind, op, args).Some?
  {
    hide Find, VerifyCommand, PackCommand, Wrapped, Echo;
  }

  lemma {:induction false} StepAllowed(world: World, kind: Kind, st: State, msg: Value)
    requires Conforming(msg)
    ensures var turn := OnMessage(world, kind, st, msg);
            turn.stop == None && Allowed(Ready(kind, st), msg, Ready(kind, turn.state), Shapes(turn.sent))
  {
    hide Find, ShapeOf, HelloAck, Capabilities, ErrorMessage, ReactionMessage, Operate;
    DifferentTypes();
    var id := Item(msg, "id");
    assert id == IdOf(msg) && id.Truthy();
    HelloShapes(kind, world.stamps(st.count), world.stamps(st.count + 1), id);
    ErrorShape(world.stamps(st.count), id, "IPC_STATE", "invoke before handshake", None);
    var payload := OrEmpty(Item(msg, "payload"));
    var op, args := Item(payload, "op"), OrEmpty(Item(payload, "args"));
    OperateAnswers(world, kind, op, args);
    ReactionShape(world.stamps(st.count), id, Operate(world, kind, op, args).value);
  }

  lemma {:induction false} ShapesAppend(a: seq<Value>, b: seq<Value>)
    ensures Shapes(a + b) == Shapes(a) + Shapes(b)
  {
    hide ShapeOf;
  }

  /** Refinement: on any conforming input either adapter goes on to the end of it, and what it
    writes is a run of the automaton. */
  lemma {:induction false} AdapterRefines(world: World, kind: Kind, st: State, msgs: seq<Value>)
    requires forall i :: 0 <= i < |msgs| ==> Conforming(msgs[i])
    ensures var turn := Over(world, kind, st, msgs);
            turn.stop == None && Accepts(Ready(kind, st), msgs, Shapes(turn.sent))
    decreases |msgs|
  {
    hide OnMessage, Allowed, Conforming, Ready, ShapeOf;
    if msgs != [] {
      var turn := OnMessage(world, kind, st, msgs[0]);
      StepAllowed(world, kind, st, msgs[0]);
      AdapterRefines(world, kind, turn.state, msgs[1..]);
      var more := Over(world, kind, turn.state, msgs[1..]);
      ShapesAppend(turn.sent, more.sent);
      var out, k := Shapes(turn.sent + more.sent), |turn.sent|;
      assert out[..k] == Shapes(turn.sent) && out[k..] == Shapes(more.sent);
      assert AcceptsSplit(Ready(kind, st), msgs, out, Ready(kind, turn.state), k);
    }
  }

  lemma {:induction false} OverAppend(world: World, kind: Kind, st: State, a: seq<Value>, b: seq<Value>)
    requires Over(world, kind, st, a).stop == None
    ensures var first := Over(world, kind, st, a);
            var second := Over(world, kind, first.state, b);
            Over(world, kind, st, a + b) == Turn(second.state, first.sent + second.sent, second.stop)
    decreases |a|
  {
    hide OnMessage;
    if a == [] {
      assert a + b == b;
      var second := Over(world, kind, st, b);
      assert [] + second.sent == second.sent;
    } else {
      var turn := OnMessage(world, kind, st, a[0]);
      assert (a + b)[1..] == a[1..] + b;
      OverAppend(world, kind, turn.state, a[1..], b);
      var first := Over(world, kind, turn.state, a[1..]);
      Associative(turn.sent, first.sent, Over(world, kind, first.state, b).sent);
    }
  }

  /** A version mismatch after a conforming input: one error that replies to nothing, then exit 2,
    and nothing that follows is read. */
  lemma {:induction false} MismatchStops(world: World, kind: Kind, msgs: seq<Value>, bad: Value, rest: seq<Value>)
    requires forall i :: 0 <= i < |msgs| ==> Conforming(msgs[i])
    requires bad.Obj? && Item(bad, "v") != Str(IPC_VERSION)
    ensures var turn := Over(world, kind, START, msgs + [bad] + rest);
            && ExitOf(turn.stop) == Code(2)
            && Shapes(turn.sent) == Shapes(Over(world, kind, START, msgs).sent) + [Complaint]
  {
    hide Find, Conforming, ShapeOf, Accepts, ErrorMessage;
    AdapterRefines(world, kind, START, msgs);
    var first := Over(world, kind, START, msgs);
    OverAppend(world, kind, START, msgs, [bad] + rest);
    assert msgs + [bad] + rest == msgs + ([bad] + rest);
    assert ([bad] + rest)[0] == bad;
    var turn := OnMessage(world, kind, first.state, bad);
    ErrorShape(world.stamps(first.state.count), Null, "IPC_PROTO_MISMATCH", "unsupported protocol",
      Some(Obj([Field("got", Item(bad, "v"))])));
    assert Over(world, kind, first.state, [bad] + rest) == turn;
    ShapesAppend(first.sent, turn.sent);
  }

  /** In short, for both adapters: on conforming input every invoke gets one answer, in order. */
  lemma {:induction false} EveryInvokeAnswered(world: World, kind: Kind, lines: seq<string>)
    requires forall i :: 0 <= i < |MessagesIn(lines)| ==> Conforming(MessagesIn(lines)[i])
    ensures var run := RunFrom(world, kind, START, lines);
            && ExitOf(run.stop) == Code(0)
            && AnsweredIds(Shapes(run.sent)) == InvokeIds(MessagesIn(lines))
  {
    hide Conforming, Accepts, RunFrom, Over, MessagesIn, Shapes;
    LinesAreMessages(world, kind, START, lines);
    AdapterRefines(world, kind, START, MessagesIn(lines));
    OneAnswerEach(Ready(kind, START), MessagesIn(lines), Shapes(RunFrom(world, kind, START, lines).sent));
  }

  // ---------- the commands of the wrapper operations ----------

  /** The argument is there and truthy. */
  predicate Given(args: Value, key: string)
    requires args.Obj?
  {
    Item(args, key).Truthy()
  }

  function Shown(world: World, args: Value, key: string): string
    requires args.Obj?
  {
    Text(world, Item(args, key))
  }

  /** `keys[i]` is the first that is not given. */
  predicate MissesFirst(args: Value, keys: seq<string>, i: nat)
    requires args.Obj? && i < |keys|
  {
    !Given(args, keys[i]) && forall j :: 0 <= j < i ==> Given(args, keys[j])
  }

  lemma {:induction false} FirstMissingIs(args: Value, keys: seq<string>)
    requires args.Obj?
    ensures match FirstMissing(args, keys)
            case None => forall i :: 0 <= i < |keys| ==> Given(args, keys[i])
            case Some(key) => exists i :: 0 <= i < |keys| && MissesFirst(args, keys, i) && key == keys[i]
  {
    hide Item;
    if keys != [] {
      if !Given(args, keys[0]) {
        assert MissesFirst(args, keys, 0);
      } else {
        FirstMissingIs(args, keys[1..]);
        if FirstMissing(args, keys[1..]).Some? {
          var i :| 0 <= i < |keys[1..]| && MissesFirst(args, keys[1..], i)
                   && FirstMissing(args, keys).value == keys[1..][i];
          assert MissesFirst(args, keys, i + 1);
        }
      }
    }
  }

  lemma {:induction false} ThreeOptions(world: World, args: Value, k0: string, k1: string, k2: string)
    requires args.Obj?
    ensures Options(world, args, [k0, k1, k2]) ==
            ["--" + k0, Shown(world, args, k0), "--" + k1, Shown(world, args, k1), "--" + k2, Shown(world, args, k2)]
  {
    hide Item;
    assert [k2][1..] == [] && Options(world, args, [k2]) == ["--" + k2, Shown(world, args, k2)];
    assert [k1, k2][1..] == [k2];
    assert [k0, k1, k2][1..] == [k1, k2];
  }

  predicate AllGiven(args: Value, keys: seq<string>)
    requires args.Obj?
  {
    forall i :: 0 <= i < |keys| ==> Given(args, keys[i])
  }

  /** There is no verification to run exactly when the arguments are no object, or it is to execute and
    a file is not given; the first such file is named. */
  lemma {:induction false} VerifyRefusedIff(world: World, args: Value)
    ensures VerifyCommand(world, args).NoCommand? <==>
            !args.Obj? || (Given(args, "execute") && !AllGiven(args, ["trpc", "fixtures", "nonces"]))
    ensures !args.Obj? ==> VerifyCommand(world, args) == NoCommand(world.complaint(args))
    ensures args.Obj? && VerifyCommand(world, args).NoCommand? ==>
              var keys := ["trpc", "fixtures", "nonces"];
              exists i :: 0 <= i < |keys| && MissesFirst(args, keys, i) &&
                VerifyCommand(world, args).reason == "execute mode requires " + keys[i]
  {
    hide Item, FirstMissing, Options;
    if args.Obj? { FirstMissingIs(args, ["trpc", "fixtures", "nonces"]); }
  }

  /** The verification that runs: a receipt path always, the three files exactly when executing. */
  lemma {:induction false} VerifyCommandIs(world: World, args: Value)
    requires VerifyCommand(world, args).Command?
    ensures args.Obj? && VerifyCommand(world, args).executes == Given(args, "execute")
    ensures VerifyCommand(world, args).receipt ==
            if Given(args, "receipt") then Item(args, "receipt")
            else Str(".workstation/test-reports/tritrpc-rust-cli-check-adapter.json")
    ensures VerifyCommand(world, args).cmd ==
            [world.python, world.verifyWrapper, "--receipt", Text(world, VerifyCommand(world, args).receipt)] +
            if !Given(args, "execute") then []
            else ["--execute", "--trpc", Shown(world, args, "trpc"), "--fixtures", Shown(world, args, "fixtures"),
              "--nonces", Shown(world, args, "nonces")]
  {
    hide Item, FirstMissing, Options, Find;
    ThreeOptions(world, args, "trpc", "fixtures", "nonces");
    assert "--" + "trpc" == "--trpc" && "--" + "fixtures" == "--fixtures" && "--" + "nonces" == "--nonces";
  }

  /** There is no frame to pack exactly when the arguments are no object, one of the three is not given,
    or it is to execute and the packer is not given; the first of them is named. */
  lemma {:induction false} PackRefusedIff(world: World, args: Value)
    ensures PackCommand(world, args).NoCommand? <==>
            || !args.Obj? || !AllGiven(args, ["service", "method", "json"])
            || (Given(args, "execute") && !Given(args, "trpc"))
    ensures !args.Obj? ==> PackCommand(world, args) == NoCommand(world.complaint(args))
    ensures args.Obj? && !AllGiven(args, ["service", "method", "json"]) ==>
              var keys := ["service", "method", "json"];
              exists i :: 0 <= i < |keys| && MissesFirst(args, keys, i) &&
                PackCommand(world, args) == NoCommand("tritrpc.frame.pack requires " + keys[i])
    ensures args.Obj? && AllGiven(args, ["service", "method", "json"]) && PackCommand(world, args).NoCommand? ==>
              PackCommand(world, args).reason == "execute mode requires trpc"
  {
    hide Item, FirstMissing, PackBase;
    if args.Obj? { FirstMissingIs(args, ["service", "method", "json"]); }
  }

  function Flagged(given: bool, name: string, value: string): seq<string> { if given then [name, value] else [] }

  /** The end of a packing's command line: nonce and key when given, the packer when executing. */
  function PackTail(world: World, args: Value): seq<string>
    requires args.Obj?
  {
    Flagged(Given(args, "nonce"), "--nonce", Shown(world, args, "nonce"))
    + (Flagged(Given(args, "key"), "--key", Shown(world, args, "key"))
       + if Given(args, "execute") then ["--execute", "--trpc", Shown(world, args, "trpc")] else [])
  }

  /** The packing that runs. */
  lemma {:induction false} PackCommandIs(world: World, args: Value)
    requires PackCommand(world, args).Command?
    ensures args.Obj? && PackCommand(world, args).executes == Given(args, "execute")
    ensures PackCommand(world, args).receipt ==
            if Given(args, "receipt") then Item(args, "receipt")
            else Str(".workstation/test-reports/tritrpc-frame-pack-check-adapter.json")
    ensures PackCommand(world, args).cmd ==
            [world.python, world.packWrapper, "--receipt", Text(world, PackCommand(world, args).receipt),
              "--service", Shown(world, args, "service"), "--method", Shown(world, args, "method"),
              "--json", Shown(world, args, "json")] + PackTail(world, args)
  {
    hide Item, FirstMissing, PackBase, PackTail;
    PackWords(world, args, PackCommand(world, args).receipt);
  }

  lemma {:induction false} PackHead(world: World, args: Value, receipt: Value)
    requires args.Obj?
    ensures [world.python, world.packWrapper, "--receipt", Text(world, receipt)] + Options(world, args, PACK_KEYS) ==
            [world.python, world.packWrapper, "--receipt", Text(world, receipt),
              "--service", Shown(world, args, "service"), "--method", Shown(world, args, "method"),
              "--json", Shown(world, args, "json")]
  {
    hide Item, Options, Shown;
    ThreeOptions(world, args, "service", "method", "json");
    assert "--" + "service" == "--service" && "--" + "method" == "--method" && "--" + "json" == "--json";
  }

  lemma {:induction false} PackOptional(world: World, args: Value, key: string, name: string)
    requires args.Obj? && name == "--" + key
    ensures Optional(world, args, key) == Flagged(Given(args, key), name, Shown(world, args, key))
  {
    hide Item;
  }

  lemma {:induction false} PackWords(world: World, args: Value, receipt: Value)
    requires args.Obj?
    ensures PackBase(world, args, receipt) +
            (if Given(args, "execute") then ["--execute", "--trpc", Shown(world, args, "trpc")] else []) ==
            [world.python, world.packWrapper, "--receipt", Text(world, receipt),
              "--service", Shown(world, args, "service"), "--method", Shown(world, args, "method"),
              "--json", Shown(world, args, "json")] + PackTail(world, args)
    ensures PackBase(world, args, receipt) + [] == PackBase(world, args, receipt)
  {
    hide Item, Options, Given, Shown;
    PackHead(world, args, receipt);
    PackOptional(world, args, "nonce", "--nonce");
    PackOptional(world, args, "key", "--key");
    hide Optional, Flagged;
    assert "--" + "nonce" == "--nonce" && "--" + "key" == "--key";
    var head := [world.python, world.packWrapper, "--receipt", Text(world, receipt)] + Options(world, args, PACK_KEYS);
    var nonce, key := Optional(world, args, "nonce"), Optional(world, args, "key");
    var rest := if Given(args, "execute") then ["--execute", "--trpc", Shown(world, args, "trpc")] else [];
    Associative(head + nonce, key, rest);
    Associative(head, nonce, key + rest);
  }

  /** In front of texts that do not begin with its name, an option can be read back. */
  lemma {:induction false} FlagReads(
      name: string, a: bool, v: string, s: seq<string>, b: bool, w: string, t: seq<string>)
    requires Flagged(a, name, v) + s == Flagged(b, name, w) + t
    requires (s != [] ==> s[0] != name) && (t != [] ==> t[0] != name)
    ensures a == b && (a ==> v == w) && s == t
  {
    var x, y := Flagged(a, name, v) + s, Flagged(b, name, w) + t;
    assert a ==> x[0] == name && x[1] == v && x[2..] == s;
    assert b ==> y[0] == name && y[1] == w && y[2..] == t;
    assert !a ==> x == s;
    assert !b ==> y == t;
  }

  /** Both leave the argument out, or both give it and it reads the same. */
  predicate SameOption(world: World, a: Value, b: Value, key: string)
    requires a.Obj? && b.Obj?
  {
    Given(a, key) == Given(b, key) && (Given(a, key) ==> Shown(world, a, key) == Shown(world, b, key))
  }

  lemma {:induction false} PackTailFixes(world: World, a: Value, b: Value)
    requires a.Obj? && b.Obj? && PackTail(world, a) == PackTail(world, b)
    ensures SameOption(world, a, b, "nonce") && SameOption(world, a, b, "key")
    ensures Given(a, "execute") == Given(b, "execute")
    ensures Given(a, "execute") ==> Shown(world, a, "trpc") == Shown(world, b, "trpc")
  {
    hide Given, Shown;
    assert "--nonce"[2] != "--key"[2] && "--key"[2] != "--execute"[2] && "--nonce"[2] != "--execute"[2];
    var e := if Given(a, "execute") then ["--execute", "--trpc", Shown(world, a, "trpc")] else [];
    var f := if Given(b, "execute") then ["--execute", "--trpc", Shown(world, b, "trpc")] else [];
    var m, n := Flagged(Given(a, "key"), "--key", Shown(world, a, "key")),
                Flagged(Given(b, "key"), "--key", Shown(world, b, "key"));
    FlagReads("--nonce", Given(a, "nonce"), Shown(world, a, "nonce"), m + e,
              Given(b, "nonce"), Shown(world, b, "nonce"), n + f);
    FlagReads("--key", Given(a, "key"), Shown(world, a, "key"), e, Given(b, "key"), Shown(world, b, "key"), f);
    assert e == f && |e| == |f|;
    assert Given(a, "execute") ==> e[2] == f[2];
  }

  /** The command line loses nothing: equal lines come from arguments that ask for the same. */
  lemma {:induction false} PackLineFixesArguments(world: World, a: Value, b: Value)
    requires PackCommand(world, a).Command? && PackCommand(world, b).Command?
    requires PackCommand(world, a).cmd == PackCommand(world, b).cmd
    ensures a.Obj? && b.Obj? && Given(a, "execute") == Given(b, "execute")
    ensures Shown(world, a, "service") == Shown(world, b, "service")
    ensures Shown(world, a, "method") == Shown(world, b, "method")
    ensures Shown(world, a, "json") == Shown(world, b, "json")
    ensures SameOption(world, a, b, "nonce") && SameOption(world, a, b, "key")
    ensures Given(a, "execute") ==> Shown(world, a, "trpc") == Shown(world, b, "trpc")
    ensures Text(world, PackCommand(world, a).receipt) == Text(world, PackCommand(world, b).receipt)
  {
    hide Item, PackCommand, PackTail, Shown, Given, SameOption, Text;
    PackPlaces(world, a);
    PackPlaces(world, b);
    PackTailFixes(world, a, b);
  }

  lemma {:induction false} PackPlaces(world: World, args: Value)
    requires PackCommand(world, args).Command?
    ensures args.Obj? && |PackCommand(world, args).cmd| >= 10
    ensures var x := PackCommand(world, args).cmd;
            && x[3] == Text(world, PackCommand(world, args).receipt) && x[5] == Shown(world, args, "service")
            && x[7] == Shown(world, args, "method") && x[9] == Shown(world, args, "json")
            && x[10..] == PackTail(world, args)
  {
    hide Item, PackCommand, PackTail, Shown, Given, Text;
    PackCommandIs(world, args);
  }

  // ---------- redaction ----------

  /** A command as it is shown: parts that are 64 hexadecimal digits are not, and all others are. */
  ghost predicate Shows(v: Value, cmd: seq<string>) {
    && v.Arr? && |v.items| == |cmd|
    && forall i :: 0 <= i < |cmd| ==> v.items[i] == Str(if IsKey(cmd[i]) then "<redacted>" else cmd[i])
  }

  const HEX := "0123456789abcdefABCDEF"

  predicate IsKey(part: string) { |part| == 64 && forall k :: 0 <= k < |part| ==> part[k] in HEX }

  lemma {:induction false} HexDigits()
    ensures |HEX| == 22
    ensures forall i :: 0 <= i < 10 ==> HEX[i] as int == '0' as int + i
    ensures forall i :: 10 <= i < 16 ==> HEX[i] as int == 'a' as int + i - 10
    ensures forall i :: 16 <= i < 22 ==> HEX[i] as int == 'A' as int + i - 16
  {
  }

  lemma {:induction false} HexIs(c: char)
    ensures Receipts.IsHex(c) <==> c in HEX
  {
    HexDigits();
    hide HEX;
    var n := c as int;
    assert '0' <= c <= '9' ==> HEX[n - '0' as int] == c;
    assert 'a' <= c <= 'f' ==> HEX[n - 'a' as int + 10] == c;
    assert 'A' <= c <= 'F' ==> HEX[n - 'A' as int + 16] == c;
  }

  lemma {:induction false} SecretIs(part: string)
    ensures IsSecret(part) <==> IsKey(part)
  {
    hide Receipts.IsHex, HEX;
    forall k | 0 <= k < |part| ensures Receipts.IsHex(part[k]) <==> part[k] in HEX { HexIs(part[k]); }
  }

  lemma {:induction false} RedactedShows(cmd: seq<string>)
    ensures Shows(Strings(Redact(cmd)), cmd)
  {
    hide IsSecret, IsKey;
    forall i | 0 <= i < |cmd| ensures IsSecret(cmd[i]) <==> IsKey(cmd[i]) { SecretIs(cmd[i]); }
  }

  /** A reply shows the command without its keys and nonces, and otherwise as it was run. */
  lemma {:induction false} SecretsRedacted(world: World, command: Command, ran: Process)
    requires command.Command? && ran.Ran?
    ensures var shown := Find(WrapperData(world, command, ran).fields, "command");
            shown.Some? && Shows(shown.value, command.cmd)
  {
    hide Strings, Redact, Shows;
    RedactedShows(command.cmd);
  }
}
