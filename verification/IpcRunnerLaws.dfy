/** What the runner guarantees against an arbitrary adapter: correlation and transcript fidelity. */
module IpcRunnerLaws {
  import opened Sequences
  import opened Json
  import opened Utf8
  import opened Ndjson
  import opened IpcRunner

  // ---------- reading, in terms of messages and lines ----------

  /** The text a reader copies into the transcript: of every line that decodes and is not empty. */
  function TextOf(raw: seq<Byte>): seq<string> {
    match ReadLine(raw)
    case Skipped => []
    case Noise(text) => [text]
    case Message(text, _) => [text]
  }

  function TextsOf(lines: seq<seq<Byte>>): seq<string> {
    if lines == [] then [] else TextOf(lines[0]) + TextsOf(lines[1..])
  }

  function SentLines(log: seq<Entry>): seq<string> {
    if log == [] then [] else (if log[0].Sent? then [log[0].line] else []) + SentLines(log[1..])
  }

  function GotLines(log: seq<Entry>): seq<string> {
    if log == [] then [] else (if log[0].Got? then [log[0].line] else []) + GotLines(log[1..])
  }

  lemma {:induction false} LinesAppend(a: seq<Entry>, b: seq<Entry>)
    ensures SentLines(a + b) == SentLines(a) + SentLines(b)
    ensures GotLines(a + b) == GotLines(a) + GotLines(b)
  {
    if a == [] {
      assert a + b == b;
    } else {
      assert (a + b)[1..] == a[1..] + b;
      LinesAppend(a[1..], b);
      Associative(if a[0].Sent? then [a[0].line] else [], SentLines(a[1..]), SentLines(b));
      Associative(if a[0].Got? then [a[0].line] else [], GotLines(a[1..]), GotLines(b));
    }
  }

  lemma {:induction false} OneEntry(e: Entry)
    ensures SentLines([e]) == if e.Sent? then [e.line] else []
    ensures GotLines([e]) == if e.Got? then [e.line] else []
  {
    assert [e][1..] == [];
  }

  lemma {:induction false} TextsAppend(a: seq<seq<Byte>>, b: seq<seq<Byte>>)
    ensures TextsOf(a + b) == TextsOf(a) + TextsOf(b)
  {
    hide TextOf;
    if a == [] {
      assert a + b == b;
    } else {
      assert (a + b)[1..] == a[1..] + b;
      TextsAppend(a[1..], b);
      Associative(TextOf(a[0]), TextsOf(a[1..]), TextsOf(b));
    }
  }

  /** `rest` is what is left of `input` after some whole lines, whose texts are the `Got` lines of `log`. */
  ghost predicate Consumed(input: seq<Byte>, rest: seq<Byte>, log: seq<Entry>) {
    exists lines :: RawLines(input) == lines + RawLines(rest) && GotLines(log) == TextsOf(lines)
  }

  lemma {:induction false} ConsumedMore(a: seq<Byte>, b: seq<Byte>, c: seq<Byte>, log1: seq<Entry>, log2: seq<Entry>)
    requires Consumed(a, b, log1) && Consumed(b, c, log2)
    ensures Consumed(a, c, log1 + log2)
  {
    hide RawLines, TextsOf, GotLines;
    var l1 :| RawLines(a) == l1 + RawLines(b) && GotLines(log1) == TextsOf(l1);
    var l2 :| RawLines(b) == l2 + RawLines(c) && GotLines(log2) == TextsOf(l2);
    Associative(l1, l2, RawLines(c));
    TextsAppend(l1, l2);
    LinesAppend(log1, log2);
    assert RawLines(a) == (l1 + l2) + RawLines(c);
  }

  lemma {:induction false} ConsumedNothing(input: seq<Byte>, log: seq<Entry>)
    requires GotLines(log) == []
    ensures Consumed(input, input, log)
  {
    hide RawLines, GotLines;
    assert RawLines(input) == [] + RawLines(input) && TextsOf([]) == [];
  }

  lemma {:induction false} ConsumedLine(input: seq<Byte>, log: seq<Entry>)
    requires input != [] && GotLines(log) == TextOf(FirstLine(input))
    ensures Consumed(input, input[|FirstLine(input)|..], log)
  {
    CutRaw(input);
    hide RawLines, GotLines, TextOf, FirstLine;
    var raw := FirstLine(input);
    var one := [raw];
    assert one[1..] == [] && TextsOf(one) == TextOf(raw) + TextsOf(one[1..]) == TextOf(raw);
  }

  /** `p` is the next message of the stream, and its log exactly the lines up to it. */
  ghost predicate IsNext(input: seq<Byte>, p: Pull) {
    && Consumed(input, p.rest, p.log) && SentLines(p.log) == []
    && Messages(input) == (if p.msg.Some? then [p.msg.value] + Messages(p.rest) else [])
    && (p.msg.None? ==> p.rest == [])
    && (p.msg.Some? ==> p.log != [] && p.log[|p.log| - 1].Got? && Loads(p.log[|p.log| - 1].line) == p.msg)
  }

  lemma {:induction false} PullIs(input: seq<Byte>)
    ensures IsNext(input, PullNext(input))
    decreases |input|
  {
    if input == [] {
      ConsumedNothing([], []);
    } else {
      hide *;
      PullFirst(input);
      FirstLineFacts(input);
      var raw := FirstLine(input);
      var rest := input[|raw|..];
      match ReadLine(raw)
      case Skipped =>
        PullIs(rest);
        PullPast(input, [], PullNext(rest));
        assert [] + PullNext(rest).log == PullNext(rest).log;
      case Noise(text) =>
        PullIs(rest);
        PullPast(input, [Got(text)], PullNext(rest));
      case Message(text, v) =>
        PullHere(input, text, v);
    }
  }

  lemma {:induction false} PullPast(input: seq<Byte>, log: seq<Entry>, p: Pull)
    requires input != [] && IsNext(input[|FirstLine(input)|..], p)
    requires match ReadLine(FirstLine(input))
             case Skipped => log == []
             case Noise(text) => log == [Got(text)]
             case _ => false
    ensures IsNext(input, p.(log := log + p.log))
  {
    hide Messages, Consumed, FirstLine, ReadLine, Loads, SentLines, GotLines, TextsOf, RawLines, Decode;
    MessagesFirst(input);
    FirstLineFacts(input);
    var rest := input[|FirstLine(input)|..];
    SkippedLog(log);
    ConsumedLine(input, log);
    hide Consumed;
    ConsumedMore(input, rest, p.rest, log, p.log);
    LinesAppend(log, p.log);
    LastStays(log, p.log);
  }

  lemma {:induction false} LastStays(log: seq<Entry>, more: seq<Entry>)
    ensures more != [] ==> log + more != [] && (log + more)[|log + more| - 1] == more[|more| - 1]
  {
  }

  lemma {:induction false} SkippedLog(log: seq<Entry>)
    requires log == [] || (|log| == 1 && log[0].Got?)
    ensures SentLines(log) == [] && GotLines(log) == if log == [] then [] else [log[0].line]
  {
    if log != [] {
      OneEntry(log[0]);
      assert log == [log[0]];
    }
  }

  lemma {:induction false} PullHere(input: seq<Byte>, text: string, v: Value)
    requires input != [] && ReadLine(FirstLine(input)) == Message(text, v) && Loads(text) == Some(v)
    ensures IsNext(input, Pull(Some(v), [Got(text)], input[|FirstLine(input)|..]))
  {
    hide Messages, Consumed, FirstLine, ReadLine, Loads, SentLines, GotLines, TextsOf, RawLines, Decode;
    MessagesFirst(input);
    FirstLineFacts(input);
    OneEntry(Got(text));
    ConsumedLine(input, [Got(text)]);
  }

  lemma {:induction false} PullFirst(input: seq<Byte>)
    requires input != []
    ensures var raw := FirstLine(input);
            var rest := input[|raw|..];
            match ReadLine(raw)
            case Skipped => PullNext(input) == PullNext(rest)
            case Noise(text) => PullNext(input) == PullNext(rest).(log := [Got(text)] + PullNext(rest).log)
            case Message(text, v) => PullNext(input) == Pull(Some(v), [Got(text)], rest) && Loads(text) == Some(v)
  {
    hide FirstLine, Loads, Decode;
  }

  lemma {:induction false} MessagesFirst(input: seq<Byte>)
    requires input != []
    ensures var raw := FirstLine(input);
            Messages(input) ==
            (match ReadLine(raw) case Message(_, v) => [v] case _ => []) + Messages(input[|raw|..])
  {
    CutRaw(input);
    hide RawLines, FirstLine, ReadLine;
    var raw := FirstLine(input);
    assert ([raw] + RawLines(input[|raw|..]))[1..] == RawLines(input[|raw|..]);
  }

  // ---------- correlation ----------

  /** The first `k` messages leave `invoke` waiting. */
  ghost predicate Waiting(msgs: seq<Value>, k: nat, id: string, late: nat -> bool, from: nat)
    requires k <= |msgs|
  {
    forall j :: 0 <= j < k ==> InvokeOn(msgs[j], id, late(from + j)) == None
  }

  /** `k` is the first message that ends the wait, with this outcome. */
  ghost predicate EndsAt(msgs: seq<Value>, k: nat, id: string, late: nat -> bool, from: nat, outcome: Outcome) {
    k < |msgs| && Waiting(msgs, k, id, late, from) && InvokeOn(msgs[k], id, late(from + k)) == Some(outcome)
  }

  lemma {:induction false} InvokeEnds(input: seq<Byte>, id: string, late: nat -> bool, from: nat)
    returns (k: nat)
    ensures var outcome := InvokeFrom(input, id, late, from).outcome;
            || EndsAt(Messages(input), k, id, late, from, outcome)
            || (k == |Messages(input)| && Waiting(Messages(input), k, id, late, from)
                && outcome == Failed(AdapterEnded))
    decreases |input|
  {
    hide PullNext, Messages, InvokeOn, Waiting;
    PullStep(input);
    var p := PullNext(input);
    k := 0;
    WaitingNone(Messages(input), id, late, from);
    if p.msg.Some? && InvokeOn(p.msg.value, id, late(from)).None? {
      k := InvokeEnds(p.rest, id, late, from + 1);
      WaitingOne(p.msg.value, Messages(p.rest), k, id, late, from);
      k := k + 1;
    }
  }

  lemma {:induction false} PullStep(input: seq<Byte>)
    ensures var p := PullNext(input);
            && (p.msg.Some? ==> |p.rest| < |input|)
            && Messages(input) == if p.msg.Some? then [p.msg.value] + Messages(p.rest) else []
  {
    PullIs(input);
    hide PullNext, Messages, Consumed, SentLines, Loads;
    PullShortens(input);
  }

  lemma {:induction false} WaitingNone(msgs: seq<Value>, id: string, late: nat -> bool, from: nat)
    ensures Waiting(msgs, 0, id, late, from)
  {
  }

  lemma {:induction false} WaitingOne(msg: Value, more: seq<Value>, k: nat, id: string, late: nat -> bool, from: nat)
    requires k <= |more| && Waiting(more, k, id, late, from + 1) && InvokeOn(msg, id, late(from)) == None
    ensures Waiting([msg] + more, k + 1, id, late, from)
    ensures k < |more| ==> ([msg] + more)[k + 1] == more[k] && late(from + 1 + k) == late(from + (k + 1))
  {
    hide InvokeOn;
    var msgs := [msg] + more;
    forall j | 0 <= j < k + 1 ensures InvokeOn(msgs[j], id, late(from + j)) == None {
      if j > 0 {
        assert InvokeOn(more[j - 1], id, late(from + 1 + (j - 1))) == None;
      }
    }
  }

  /** A message that answers the request with a result. */
  ghost predicate Answers(msg: Value, id: string, payload: Value) {
    IsEnvelope(msg) && RepliesTo(msg, id) && HasType(msg, "result") && Payload(msg) == payload
  }

  /** Nothing before the answer stopped the wait: valid envelopes all, and none of them a result or
    an error for this request, or any reply to it once the time is over. */
  ghost predicate Unanswered(msg: Value, id: string, late: bool) {
    IsEnvelope(msg) && (RepliesTo(msg, id) ==> !HasType(msg, "result") && !HasType(msg, "error") && !late)
  }

  /** `invoke` returns a payload exactly when it is the payload of the first message that ends the
    wait for its request id, after valid envelopes only. */
  lemma {:induction false} InvokeReturnsIff(input: seq<Byte>, request: Stamp, op: string, args: Value, timeoutMs: int,
                                            late: nat -> bool, payload: Value)
    ensures Invoke(input, request, op, args, timeoutMs, late).outcome == Success(payload) <==>
            exists k :: 0 <= k < |Messages(input)| && FirstAnswer(Messages(input), k, request.id, late, payload)
  {
    hide PullNext, Messages, IsEnvelope, RepliesTo, HasType, Payload;
    var id, msgs := request.id, Messages(input);
    var k := InvokeEnds(input, id, late, 0);
    var outcome := InvokeFrom(input, id, late, 0).outcome;
    if outcome == Success(payload) {
      ResultIsNotError(msgs[k]);
      assert EndsAt(msgs, k, id, late, 0, outcome);
      forall j | 0 <= j < k ensures Unanswered(msgs[j], id, late(j)) {
        assert InvokeOn(msgs[j], id, late(0 + j)) == None;
      }
      assert FirstAnswer(msgs, k, id, late, payload);
    }
    if j :| 0 <= j < |msgs| && FirstAnswer(msgs, j, id, late, payload) {
      OnlyOneEnd(msgs, j, k, id, late, payload, outcome);
    }
  }

  lemma {:induction false} OnlyOneEnd(msgs: seq<Value>, j: nat, k: nat, id: string, late: nat -> bool, payload: Value,
                                      outcome: Outcome)
    requires j < |msgs| && FirstAnswer(msgs, j, id, late, payload)
    requires EndsAt(msgs, k, id, late, 0, outcome) || (k == |msgs| && Waiting(msgs, k, id, late, 0))
    ensures k == j && outcome == Success(payload)
  {
    hide IsEnvelope, RepliesTo, Payload;
    assert InvokeOn(msgs[j], id, late(0 + j)) == Some(Success(payload));
    forall i | 0 <= i < j ensures InvokeOn(msgs[i], id, late(0 + i)) == None {
      assert Unanswered(msgs[i], id, late(i));
    }
  }

  lemma {:induction false} ResultIsNotError(msg: Value)
    requires HasType(msg, "result")
    ensures !HasType(msg, "error")
  {
    assert |"result"| != |"error"|;
  }

  ghost predicate FirstAnswer(msgs: seq<Value>, k: nat, id: string, late: nat -> bool, payload: Value)
    requires k < |msgs|
  {
    Answers(msgs[k], id, payload) && forall j :: 0 <= j < k ==> Unanswered(msgs[j], id, late(j))
  }

  /** A message that ends the wait with a failure. */
  ghost predicate Fails(msg: Value, id: string, late: bool, why: Failure) {
    match why
    case BadEnvelope => !IsEnvelope(msg)
    case AdapterError => IsEnvelope(msg) && RepliesTo(msg, id) && HasType(msg, "error") && !HasType(msg, "result")
    case TimedOut =>
      IsEnvelope(msg) && RepliesTo(msg, id) && !HasType(msg, "result") && !HasType(msg, "error") && late
    case _ => false
  }

  /** The first message that is not waited past fails the call so. */
  ghost predicate FirstFailure(msgs: seq<Value>, k: nat, id: string, late: nat -> bool, why: Failure) {
    k < |msgs| && Fails(msgs[k], id, late(k), why) && forall j :: 0 <= j < k ==> Unanswered(msgs[j], id, late(j))
  }

  lemma {:induction false} InvokeOnFails(msg: Value, id: string, late: bool)
    ensures InvokeOn(msg, id, late) == None <==> Unanswered(msg, id, late)
    ensures forall why :: InvokeOn(msg, id, late) == Some(Failed(why)) <==> Fails(msg, id, late, why)
  {
    hide IsEnvelope, RepliesTo, HasType, Payload;
  }

  /** `invoke` fails exactly so: the stream ends before the wait does, or the first message that ends it
    is no envelope, the adapter's error for this request, or another reply to it once the time is over. */
  lemma {:induction false} InvokeFailsIff(input: seq<Byte>, request: Stamp, op: string, args: Value, timeoutMs: int,
                                          late: nat -> bool, why: Failure)
    ensures var msgs := Messages(input);
            Invoke(input, request, op, args, timeoutMs, late).outcome == Failed(why) <==>
            if why.AdapterEnded? then forall j :: 0 <= j < |msgs| ==> Unanswered(msgs[j], request.id, late(j))
            else exists k: nat :: FirstFailure(msgs, k, request.id, late, why)
  {
    hide PullNext, Messages, InvokeOn, InvokeFrom, Unanswered, Fails;
    var id, msgs := request.id, Messages(input);
    var k := InvokeEnds(input, id, late, 0);
    var outcome := InvokeFrom(input, id, late, 0).outcome;
    forall j | 0 <= j < |msgs|
      ensures InvokeOn(msgs[j], id, late(0 + j)) == None <==> Unanswered(msgs[j], id, late(j))
      ensures InvokeOn(msgs[j], id, late(0 + j)) == Some(Failed(why)) <==> Fails(msgs[j], id, late(j), why)
    {
      InvokeOnFails(msgs[j], id, late(j));
    }
    NeverEnded(msgs, id, late);
    assert k < |msgs| && outcome == Failed(why) ==> FirstFailure(msgs, k, id, late, why);
    if i: nat :| FirstFailure(msgs, i, id, late, why) { assert i == k; }
  }

  lemma {:induction false} NeverEnded(msgs: seq<Value>, id: string, late: nat -> bool)
    ensures forall j :: 0 <= j < |msgs| ==> !Fails(msgs[j], id, late(j), AdapterEnded)
    ensures forall j :: 0 <= j < |msgs| ==>
              !(Unanswered(msgs[j], id, late(j)) && exists why :: Fails(msgs[j], id, late(j), why))
  {
    hide IsEnvelope, RepliesTo, HasType;
  }

  // ---------- the handshake ----------

  /** The message neither ends the handshake nor fails it. */
  ghost predicate Passed(msg: Value) {
    IsEnvelope(msg) && !HasType(msg, "capabilities") && (HasType(msg, "error") ==> HasType(msg, "hello_ack"))
  }

  /** `k` is the first capabilities message, and nothing before it was an error. */
  ghost predicate FirstCapabilities(msgs: seq<Value>, k: nat, payload: Value)
    requires k < |msgs|
  {
    && IsEnvelope(msgs[k]) && HasType(msgs[k], "capabilities") && Payload(msgs[k]) == payload && payload != Null
    && forall j :: 0 <= j < k ==> Passed(msgs[j])
  }

  lemma {:induction false} HandshakeOnIs(msg: Value)
    ensures HandshakeOn(msg) == None <==> Passed(msg)
    ensures forall payload :: HandshakeOn(msg) == Some(Success(payload)) <==>
              IsEnvelope(msg) && HasType(msg, "capabilities") && Payload(msg) == payload
  {
    hide IsEnvelope, Payload;
    assert HasType(msg, "capabilities") ==> !HasType(msg, "hello_ack") && !HasType(msg, "error") by {
      assert |"capabilities"| == 12 && |"hello_ack"| == 9 && |"error"| == 5;
    }
  }

  /** The handshake yields capabilities exactly when they come in the first message of that type,
    after valid envelopes only and no error. */
  lemma {:induction false} HandshakeSucceedsIff(input: seq<Byte>, caps: seq<string>, pid: nat, hello: Stamp,
                                                ack: Stamp, payload: Value)
    ensures Handshake(input, caps, pid, hello, ack).outcome == Success(payload) <==>
            exists k :: 0 <= k < |Messages(input)| && FirstCapabilities(Messages(input), k, payload)
  {
    hide HandshakeFrom, FirstCapabilities, Messages;
    HandshakeFromIff(input, caps, ack, payload);
  }

  lemma {:induction false} HandshakeFromIff(input: seq<Byte>, caps: seq<string>, ack: Stamp, payload: Value)
    ensures HandshakeFrom(input, caps, ack).outcome == Success(payload) <==>
            exists k :: 0 <= k < |Messages(input)| && FirstCapabilities(Messages(input), k, payload)
    decreases |input|
  {
    hide PullNext, Messages, HandshakeOn, Passed, IsEnvelope, HasType, Payload, FirstCapabilities, CapabilitiesAck;
    PullStep(input);
    var p := PullNext(input);
    var msgs := Messages(input);
    if p.msg.Some? {
      var msg := p.msg.value;
      HandshakeOnIs(msg);
      FirstCapabilitiesStep(msg, Messages(p.rest), payload);
      if HandshakeOn(msg).None? {
        HandshakeFromIff(p.rest, caps, ack, payload);
      }
    }
  }

  /** The message that ends the handshake with a failure. */
  ghost predicate Spoils(msg: Value, why: Failure) {
    match why
    case BadEnvelope => !IsEnvelope(msg)
    case AdapterError => IsEnvelope(msg) && HasType(msg, "error") && !HasType(msg, "hello_ack")
    case NoCapabilities => IsEnvelope(msg) && HasType(msg, "capabilities") && Payload(msg) == Null
    case _ => false
  }

  ghost predicate FirstSpoils(msgs: seq<Value>, k: nat, why: Failure) {
    k < |msgs| && Spoils(msgs[k], why) && forall j :: 0 <= j < k ==> Passed(msgs[j])
  }

  /** The handshake fails exactly so: the stream ends without capabilities, or the first message that
    is not passed over is no envelope, an error, or capabilities that are null. */
  lemma {:induction false} HandshakeFailsIff(input: seq<Byte>, caps: seq<string>, pid: nat, hello: Stamp, ack: Stamp,
                                             why: Failure)
    ensures var msgs := Messages(input);
            Handshake(input, caps, pid, hello, ack).outcome == Failed(why) <==>
            || (why.NoCapabilities? && forall j :: 0 <= j < |msgs| ==> Passed(msgs[j]))
            || exists k: nat :: FirstSpoils(msgs, k, why)
  {
    hide HandshakeFrom, FirstSpoils, Messages, Passed;
    HandshakeFromFails(input, caps, ack, why);
  }

  lemma {:induction false} HandshakeFromFails(input: seq<Byte>, caps: seq<string>, ack: Stamp, why: Failure)
    ensures HandshakeFrom(input, caps, ack).outcome == Failed(why) <==> Spoiled(Messages(input), why)
    decreases |input|
  {
    hide PullNext, Messages, HandshakeOn, Spoiled, Spoils, Passed, Payload, CapabilitiesAck;
    PullStep(input);
    var p := PullNext(input);
    NothingSpoils(why);
    if p.msg.Some? {
      SpoiledStep(p.msg.value, Messages(p.rest), why);
      HandshakeOnSpoils(p.msg.value, why);
      if HandshakeOn(p.msg.value).None? { HandshakeFromFails(p.rest, caps, ack, why); }
    }
  }

  ghost predicate Spoiled(msgs: seq<Value>, why: Failure) {
    || (why.NoCapabilities? && forall j :: 0 <= j < |msgs| ==> Passed(msgs[j]))
    || exists k: nat :: FirstSpoils(msgs, k, why)
  }

  lemma {:induction false} NothingSpoils(why: Failure)
    ensures Spoiled([], why) <==> why == NoCapabilities
  {
    hide Spoils, Passed;
  }

  lemma {:induction false} HandshakeOnSpoils(msg: Value, why: Failure)
    ensures HandshakeOn(msg) == None <==> Passed(msg)
    ensures match HandshakeOn(msg)
            case None => !Spoils(msg, why)
            case Some(Failed(reason)) => Spoils(msg, why) <==> reason == why
            case Some(Success(payload)) => Spoils(msg, why) <==> payload == Null && why == NoCapabilities
  {
    hide IsEnvelope, Payload;
    assert |"capabilities"| == 12 && |"hello_ack"| == 9 && |"error"| == 5;
  }

  lemma {:induction false} SpoiledStep(msg: Value, more: seq<Value>, why: Failure)
    ensures Spoiled([msg] + more, why) <==> Spoils(msg, why) || (Passed(msg) && Spoiled(more, why))
  {
    hide Passed, Spoils, FirstSpoils;
    var msgs := [msg] + more;
    AllPassed(msg, more);
    SpoilsAt(msg, more, 0, why);
    forall k: nat
      ensures k > 0 ==> (FirstSpoils(msgs, k, why) <==> Passed(msg) && FirstSpoils(more, k - 1, why))
      ensures FirstSpoils(msgs, k + 1, why) <==> Passed(msg) && FirstSpoils(more, k, why)
    {
      SpoilsAt(msg, more, k, why);
      if k > 0 { SpoilsAt(msg, more, k - 1, why); }
    }
    if k: nat :| FirstSpoils(msgs, k, why) {
      assert k > 0 ==> FirstSpoils(more, k - 1, why);
    }
    if k: nat :| FirstSpoils(more, k, why) && Passed(msg) {
      assert FirstSpoils(msgs, k + 1, why);
    }
  }

  lemma {:induction false} AllPassed(msg: Value, more: seq<Value>)
    ensures var msgs := [msg] + more;
            (forall j :: 0 <= j < |msgs| ==> Passed(msgs[j])) <==>
            Passed(msg) && forall j :: 0 <= j < |more| ==> Passed(more[j])
  {
    hide Passed;
    var msgs := [msg] + more;
    assert msgs[0] == msg && forall j :: 0 <= j < |more| ==> msgs[j + 1] == more[j];
    assert forall j :: 0 < j < |msgs| ==> msgs[j] == more[j - 1];
  }

  lemma {:induction false} SpoilsAt(msg: Value, more: seq<Value>, k: nat, why: Failure)
    ensures FirstSpoils([msg] + more, 0, why) <==> Spoils(msg, why)
    ensures FirstSpoils([msg] + more, k + 1, why) <==> Passed(msg) && FirstSpoils(more, k, why)
  {
    hide Passed, Spoils;
    var msgs := [msg] + more;
    assert msgs[0] == msg && forall j :: 0 <= j < |more| ==> msgs[j + 1] == more[j];
    assert forall j :: 0 < j < |msgs| ==> msgs[j] == more[j - 1];
  }

  ghost predicate SomeCapabilities(msgs: seq<Value>, payload: Value) {
    exists k :: 0 <= k < |msgs| && FirstCapabilities(msgs, k, payload)
  }

  lemma {:induction false} FirstCapabilitiesStep(msg: Value, more: seq<Value>, payload: Value)
    ensures SomeCapabilities([msg] + more, payload) <==>
            if Passed(msg) then SomeCapabilities(more, payload)
            else IsEnvelope(msg) && HasType(msg, "capabilities") && Payload(msg) == payload && payload != Null
  {
    hide IsEnvelope, HasType, Payload;
    var msgs := [msg] + more;
    assert forall j :: 0 <= j < |more| ==> msgs[j + 1] == more[j];
    if SomeCapabilities(msgs, payload) {
      var k :| 0 <= k < |msgs| && FirstCapabilities(msgs, k, payload);
      if k > 0 {
        forall j | 0 <= j < k - 1 ensures Passed(more[j]) {
          assert more[j] == msgs[j + 1];
        }
        assert msgs[k] == more[k - 1] && Passed(msgs[0]);
        assert FirstCapabilities(more, k - 1, payload);
      }
    }
    if Passed(msg) && SomeCapabilities(more, payload) {
      var k :| 0 <= k < |more| && FirstCapabilities(more, k, payload);
      forall j | 0 <= j < k + 1 ensures Passed(msgs[j]) {
        assert j > 0 ==> msgs[j] == more[j - 1];
      }
      assert FirstCapabilities(msgs, k + 1, payload);
    }
    if IsEnvelope(msg) && HasType(msg, "capabilities") && Payload(msg) == payload && payload != Null {
      assert FirstCapabilities(msgs, 0, payload);
    }
  }

  /** With a fresh request id nothing the adapter wrote before can be returned as the answer. */
  lemma {:induction false} OnlyLaterAnswers(before: seq<Byte>, after: seq<Byte>, request: Stamp, op: string,
                                            args: Value,
                                            timeoutMs: int, late: nat -> bool)
    returns (k: nat)
    requires Complete(before) && forall j :: 0 <= j < |Messages(before)| ==> !RepliesTo(Messages(before)[j], request.id)
    requires Invoke(before + after, request, op, args, timeoutMs, late).outcome.Success?
    ensures k < |Messages(after)|
    ensures Answers(Messages(after)[k], request.id, Invoke(before + after, request, op, args, timeoutMs,
            late).outcome.payload)
  {
    hide Messages, IsEnvelope, RepliesTo, HasType, Payload, Invoke;
    var payload := Invoke(before + after, request, op, args, timeoutMs, late).outcome.payload;
    InvokeReturnsIff(before + after, request, op, args, timeoutMs, late, payload);
    MessagesAppend(before, after);
    var msgs := Messages(before + after);
    var i :| 0 <= i < |msgs| && FirstAnswer(msgs, i, request.id, late, payload);
    assert forall j :: 0 <= j < |Messages(before)| ==> msgs[j] == Messages(before)[j];
    k := i - |Messages(before)|;
    assert msgs[i] == Messages(after)[k];
  }

  // ---------- transcript fidelity ----------

  function LinesOf(msgs: seq<Value>): seq<string> {
    if msgs == [] then [] else [LineOf(msgs[0])] + LinesOf(msgs[1..])
  }

  lemma {:induction false} LinesOfAppend(a: seq<Value>, b: seq<Value>)
    ensures LinesOf(a + b) == LinesOf(a) + LinesOf(b)
  {
    hide LineOf;
    if a == [] {
      assert a + b == b;
    } else {
      assert (a + b)[1..] == a[1..] + b;
      LinesOfAppend(a[1..], b);
      Associative([LineOf(a[0])], LinesOf(a[1..]), LinesOf(b));
    }
  }

  lemma {:induction false} LinesOfOne(msg: Value)
    ensures LinesOf([msg]) == [LineOf(msg)]
  {
    hide LineOf;
    assert [msg][1..] == [];
  }

  /** The log of a run from `input`: what was sent, in order, interleaved with exactly the readable
    lines of the input that was consumed, in order. */
  ghost predicate Faithful(input: seq<Byte>, run: Run) {
    Consumed(input, run.rest, run.log) && SentLines(run.log) == LinesOf(run.sent)
  }

  /** Reading some lines first. */
  lemma {:induction false} FaithfulAfter(input: seq<Byte>, p: Pull, run: Run)
    requires Consumed(input, p.rest, p.log) && SentLines(p.log) == [] && Faithful(p.rest, run)
    ensures Faithful(input, After(p.log, run))
  {
    hide Consumed, SentLines, LinesOf;
    ConsumedMore(input, p.rest, run.rest, p.log, run.log);
    LinesAppend(p.log, run.log);
    assert [] + SentLines(run.log) == SentLines(run.log);
  }

  /** Sending a message. */
  lemma {:induction false} FaithfulSend(input: seq<Byte>, msg: Value)
    ensures forall outcome :: Faithful(input, Run(outcome, [Sent(LineOf(msg))], [msg], input))
  {
    hide Consumed, SentLines, LinesOf, LineOf;
    OneEntry(Sent(LineOf(msg)));
    ConsumedNothing(input, [Sent(LineOf(msg))]);
    LinesOfOne(msg);
  }

  /** One thing after the other. */
  lemma {:induction false} FaithfulThen(input: seq<Byte>, a: Run, b: Run)
    requires Faithful(input, a) && Faithful(a.rest, b)
    ensures Faithful(input, Run(b.outcome, a.log + b.log, a.sent + b.sent, b.rest))
  {
    hide Consumed, SentLines, LinesOf;
    ConsumedMore(input, a.rest, b.rest, a.log, b.log);
    LinesAppend(a.log, b.log);
    LinesOfAppend(a.sent, b.sent);
  }

  lemma {:induction false} FaithfulRead(input: seq<Byte>)
    ensures forall outcome :: Faithful(input, Run(outcome, PullNext(input).log, [], PullNext(input).rest))
    ensures Consumed(input, PullNext(input).rest, PullNext(input).log) && SentLines(PullNext(input).log) == []
  {
    PullIs(input);
    hide PullNext, Consumed, SentLines, Messages, Loads;
    assert LinesOf([]) == [];
  }

  /** The line at `i` is the adapter's capabilities message, and the acknowledgement that replies to
    it follows at once. */
  predicate AckedAt(log: seq<Entry>, i: nat, caps: seq<string>, ack: Stamp) {
    && i + 1 < |log| && log[i].Got?
    && match Loads(log[i].line)
       case None => false
       case Some(m) => HasType(m, "capabilities") && IsEnvelope(m) && log[i + 1] == Sent(LineOf(CapabilitiesAck(ack,
         caps, IdOf(m))))
  }

  lemma {:induction false} AckedLater(log: seq<Entry>, more: seq<Entry>, i: nat, caps: seq<string>, ack: Stamp)
    requires AckedAt(more, i, caps, ack)
    ensures AckedAt(log + more, |log| + i, caps, ack)
  {
    hide Loads, HasType, IsEnvelope, CapabilitiesAck, LineOf;
    assert (log + more)[|log| + i] == more[i] && (log + more)[|log| + i + 1] == more[i + 1];
  }

  lemma {:induction false} AckedEarlier(log: seq<Entry>, more: seq<Entry>, i: nat, caps: seq<string>, ack: Stamp)
    requires AckedAt(log, i, caps, ack)
    ensures AckedAt(log + more, i, caps, ack)
  {
    hide Loads, HasType, IsEnvelope, CapabilitiesAck, LineOf;
    assert (log + more)[i] == log[i] && (log + more)[i + 1] == log[i + 1];
  }

  lemma {:induction false} HandshakeFaithful(input: seq<Byte>, caps: seq<string>, ack: Stamp) returns (i: nat)
    ensures var run := HandshakeFrom(input, caps, ack);
            && Faithful(input, run)
            && (run.outcome.Success? ==> |run.sent| == 1 && i + 2 == |run.log| && AckedAt(run.log, i, caps, ack))
            && |run.sent| <= 1
    decreases |input|
  {
    hide PullNext, Faithful, Consumed, SentLines, AckedAt, IsEnvelope, LineOf, CapabilitiesAck;
    FaithfulRead(input);
    PullShortens(input);
    var p := PullNext(input);
    i := 0;
    if p.msg.Some? {
      match HandshakeOn(p.msg.value)
      case None =>
        i := HandshakeFaithful(p.rest, caps, ack);
        var run := HandshakeFrom(p.rest, caps, ack);
        FaithfulAfter(input, p, run);
        if run.outcome.Success? { AckedLater(p.log, run.log, i, caps, ack); }
        i := |p.log| + i;
      case Some(Failed(_)) =>
      case Some(Success(payload)) =>
        var reply := CapabilitiesAck(ack, caps, IdOf(p.msg.value));
        FaithfulSend(p.rest, reply);
        FaithfulAfter(input, p, Run(HandshakeFrom(input, caps, ack).outcome, [Sent(LineOf(reply))], [reply], p.rest));
        AckHere(input, caps, ack);
        i := |p.log| - 1;
    }
  }

  lemma {:induction false} AckHere(input: seq<Byte>, caps: seq<string>, ack: Stamp)
    requires PullNext(input).msg.Some? && HandshakeOn(PullNext(input).msg.value).Some?
    requires HandshakeOn(PullNext(input).msg.value).value.Success?
    ensures var p := PullNext(input);
            && p.log != []
            && AckedAt(p.log + [Sent(LineOf(CapabilitiesAck(ack, caps, IdOf(p.msg.value))))], |p.log| - 1, caps, ack)
  {
    PullIs(input);
    hide PullNext, Consumed, SentLines, Messages, Loads, LineOf, CapabilitiesAck, IsEnvelope;
  }

  lemma {:induction false} InvokeFaithful(input: seq<Byte>, id: string, late: nat -> bool, k: nat)
    ensures var run := InvokeFrom(input, id, late, k);
            && Faithful(input, run) && run.sent == []
            && (run.outcome.Success? ==>
                  && run.log != [] && run.log[|run.log| - 1].Got?
                  && Loads(run.log[|run.log| - 1].line).Some?
                  && Answers(Loads(run.log[|run.log| - 1].line).value, id, run.outcome.payload))
    decreases |input|
  {
    hide PullNext, Faithful, Consumed, SentLines, IsEnvelope, Loads, RepliesTo, HasType, Payload;
    FaithfulRead(input);
    PullShortens(input);
    var p := PullNext(input);
    if p.msg.Some? {
      if InvokeOn(p.msg.value, id, late(k)).None? {
        InvokeFaithful(p.rest, id, late, k + 1);
        var run := InvokeFrom(p.rest, id, late, k + 1);
        FaithfulAfter(input, p, run);
        assert run.log != [] ==> (p.log + run.log)[|p.log + run.log| - 1] == run.log[|run.log| - 1];
      } else {
        LastGot(input);
      }
    }
  }

  lemma {:induction false} LastGot(input: seq<Byte>)
    requires PullNext(input).msg.Some?
    ensures var p := PullNext(input); p.log != [] && p.log[|p.log| - 1].Got? && Loads(p.log[|p.log| - 1].line) == p.msg
  {
    PullIs(input);
    hide PullNext, Consumed, SentLines, Messages, Loads;
  }

  lemma {:induction false} HandshakeSends(input: seq<Byte>, caps: seq<string>, ack: Stamp)
    ensures var run := HandshakeFrom(input, caps, ack); |run.sent| <= 1 && (run.outcome.Success? ==> |run.sent| == 1)
    decreases |input|
  {
    hide PullNext, HandshakeOn, CapabilitiesAck, IdOf, LineOf;
    PullStep(input);
    var p := PullNext(input);
    if p.msg.Some? && HandshakeOn(p.msg.value).None? { HandshakeSends(p.rest, caps, ack); }
  }

  /** The transcript of a whole conversation, for every stream an adapter may write: it interleaves,
    in order, exactly the messages sent with exactly the readable lines consumed; the hello is
    first, the acknowledgement follows its capabilities line, and a successful run ends with the
    result that was returned. */
  lemma {:induction false} SessionFaithful(input: seq<Byte>, caps: seq<string>, pid: nat, hello: Stamp, ack: Stamp,
                                           request: Stamp, op: string, args: Value, timeoutMs: int, late: nat -> bool)
    returns (i: nat)
    ensures var run := Session(input, caps, pid, hello, ack, request, op, args, timeoutMs, late);
            && Faithful(input, run)
            && run.log != [] && run.log[0] == Sent(LineOf(Hello(hello, caps, pid)))
            && (match Handshake(input, caps, pid, hello, ack).outcome
                case Failed(why) => run.outcome == Failed(why) && |run.sent| <= 2
                case Success(_) => |run.sent| == 3 && run.sent[2] == InvokeMessage(request, op, args, timeoutMs))
            && (run.outcome.Success? ==>
                  && |run.sent| == 3 && AckedAt(run.log, i, caps, ack)
                  && run.log[|run.log| - 1].Got? && Loads(run.log[|run.log| - 1].line).Some?
                  && Answers(Loads(run.log[|run.log| - 1].line).value, request.id, run.outcome.payload))
  {
    hide Faithful, Hello, InvokeMessage, LineOf, AckedAt, Answers, Loads, HandshakeFrom, InvokeFrom;
    i := HandshakeFaithful(input, caps, ack);
    HandshakeSends(input, caps, ack);
    var shaken := HandshakeFrom(input, caps, ack);
    var first := Hello(hello, caps, pid);
    FaithfulSend(input, first);
    var start := Run(shaken.outcome, [Sent(LineOf(first))], [first], input);
    FaithfulThen(input, start, shaken);
    var shake := Handshake(input, caps, pid, hello, ack);
    if shake.outcome.Success? {
      AckedLater([Sent(LineOf(first))], shaken.log, i, caps, ack);
      i := 1 + i;
      var answered := InvokeFrom(shake.rest, request.id, late, 0);
      InvokeFaithful(shake.rest, request.id, late, 0);
      var ask := InvokeMessage(request, op, args, timeoutMs);
      FaithfulSend(shake.rest, ask);
      FaithfulThen(shake.rest, Run(answered.outcome, [Sent(LineOf(ask))], [ask], shake.rest), answered);
      var call := Invoke(shake.rest, request, op, args, timeoutMs, late);
      FaithfulThen(input, shake, call);
      AckedEarlier(shake.log, call.log, i, caps, ack);
      if call.outcome.Success? {
        LastOf([Sent(LineOf(ask))], answered.log);
        LastOf(shake.log, call.log);
      }
    }
  }

  lemma {:induction false} LastOf<T>(a: seq<T>, b: seq<T>)
    requires b != []
    ensures (a + b)[|a + b| - 1] == b[|b| - 1]
  {
  }
}
