/** One JSON message per line: the framing that the IPC runner and adapters share. */
module Ndjson {
  import opened Sequences
  import opened Json
  import opened JsonRoundTrip
  import opened JsonCanonical
  import opened Utf8
  import Lines

  /** Iterating over a binary file: lines end at the byte 0x0A and keep it. */
  function ByteEnd(bytes: seq<Byte>): (n: nat)
    ensures n <= |bytes|
    ensures n < |bytes| ==> bytes[n] == NEWLINE
    ensures NEWLINE !in bytes[..n]
  {
    if bytes == [] || bytes[0] == NEWLINE then 0
    else
      var n := ByteEnd(bytes[1..]);
      assert bytes[..n + 1] == [bytes[0]] + bytes[1..][..n];
      n + 1
  }

  /** The first line, with its line end if it has one. */
  function FirstLine(bytes: seq<Byte>): (line: seq<Byte>)
    ensures line <= bytes
    ensures bytes != [] ==> line != []
  {
    var n := ByteEnd(bytes);
    if n < |bytes| then bytes[..n + 1] else bytes
  }

  function RawLines(bytes: seq<Byte>): seq<seq<Byte>>
    decreases |bytes|
  {
    if bytes == [] then []
    else [FirstLine(bytes)] + RawLines(bytes[|FirstLine(bytes)|..])
  }

  /** `s.strip("\n")`. */
  function StripEnd(s: string): string {
    if s != "" && s[|s| - 1] == '\n' then StripEnd(s[..|s| - 1]) else s
  }

  function Strip(s: string): string {
    if s != "" && s[0] == '\n' then Strip(s[1..]) else StripEnd(s)
  }

  /** What a reader makes of a line: nothing, text that is not JSON, or a message. */
  datatype Reading = Skipped | Noise(text: string) | Message(text: string, msg: Value)

  function ReadText(line: string): Reading {
    var text := Strip(line);
    if text == "" then Skipped
    else match Loads(text) case None => Noise(text) case Some(v) => Message(text, v)
  }

  function ReadLine(raw: seq<Byte>): Reading {
    match Decode(raw) case None => Skipped case Some(line) => ReadText(line)
  }

  /** The text of a message: compact, with non-ASCII characters as they are. */
  function LineOf(v: Value): string { Print(COMPACT_UTF8, v) }

  /** `NDJSONWriter.send`. */
  function Frame(v: Value): seq<Byte> { Encode(LineOf(v) + "\n") }

  function Frames(vs: seq<Value>): seq<Byte> {
    if vs == [] then [] else Frame(vs[0]) + Frames(vs[1..])
  }

  /** The messages a reader yields. */
  function Received(lines: seq<seq<Byte>>): seq<Value> {
    if lines == [] then []
    else (match ReadLine(lines[0]) case Message(_, v) => [v] case _ => []) + Received(lines[1..])
  }

  function Messages(bytes: seq<Byte>): seq<Value> { Received(RawLines(bytes)) }

  // ---------- cutting ----------

  /** The bytes are none, or end at a line end. */
  predicate Complete(bytes: seq<Byte>) { bytes == [] || bytes[|bytes| - 1] == NEWLINE }

  lemma {:induction false} ByteEndIs(bytes: seq<Byte>, n: nat)
    requires n < |bytes| && bytes[n] == NEWLINE && NEWLINE !in bytes[..n]
    ensures ByteEnd(bytes) == n
  {
    var m := ByteEnd(bytes);
    assert forall i :: 0 <= i < n ==> bytes[i] == bytes[..n][i] && bytes[i] in bytes[..n];
    assert forall i :: 0 <= i < m ==> bytes[i] == bytes[..m][i] && bytes[i] in bytes[..m];
  }

  lemma {:induction false} EndWithin(a: seq<Byte>)
    requires a != [] && Complete(a)
    ensures ByteEnd(a) < |a|
  {
    assert a[..|a|] == a && a[|a| - 1] in a;
  }

  lemma {:induction false} FirstLineAppend(a: seq<Byte>, b: seq<Byte>)
    requires a != [] && Complete(a)
    ensures FirstLine(a + b) == FirstLine(a)
    ensures (a + b)[|FirstLine(a)|..] == a[|FirstLine(a)|..] + b
    ensures Complete(a[|FirstLine(a)|..]) && Complete(FirstLine(a))
  {
    hide ByteEnd;
    var n := ByteEnd(a);
    EndWithin(a);
    assert (a + b)[..n] == a[..n] && (a + b)[n] == a[n];
    ByteEndIs(a + b, n);
    assert (a + b)[..n + 1] == a[..n + 1];
  }

  lemma {:induction false} RawLinesAppend(a: seq<Byte>, b: seq<Byte>)
    requires Complete(a)
    ensures RawLines(a + b) == RawLines(a) + RawLines(b)
    decreases |a|
  {
    if a == [] {
      assert a + b == b;
    } else {
      var n := |FirstLine(a)|;
      FirstLineAppend(a, b);
      RawLinesAppend(a[n..], b);
      CutRaw(a);
      CutRaw(a + b);
      hide RawLines, FirstLine;
      Associative([FirstLine(a)], RawLines(a[n..]), RawLines(b));
    }
  }

  lemma {:induction false} CutRaw(bytes: seq<Byte>)
    requires bytes != []
    ensures RawLines(bytes) == [FirstLine(bytes)] + RawLines(bytes[|FirstLine(bytes)|..])
  {
  }

  lemma {:induction false} ReceivedAppend(a: seq<seq<Byte>>, b: seq<seq<Byte>>)
    ensures Received(a + b) == Received(a) + Received(b)
  {
    hide ReadLine;
    if a == [] {
      assert a + b == b;
    } else {
      assert (a + b)[1..] == a[1..] + b;
      ReceivedAppend(a[1..], b);
      Associative(match ReadLine(a[0]) case Message(_, v) => [v] case _ => [], Received(a[1..]), Received(b));
    }
  }

  /** A reader recovers at each line end: what a stream holds up to there does not touch the rest. */
  lemma {:induction false} MessagesAppend(a: seq<Byte>, b: seq<Byte>)
    requires Complete(a)
    ensures Messages(a + b) == Messages(a) + Messages(b)
  {
    hide RawLines, Received;
    RawLinesAppend(a, b);
    ReceivedAppend(RawLines(a), RawLines(b));
  }

  // ---------- one frame ----------

  lemma {:induction false} LineText(v: Value)
    requires Plain(v)
    ensures LineOf(v) != "" && LineOf(v)[0] != '\n'
    ensures '\n' !in LineOf(v) && '\r' !in LineOf(v)
  {
    hide Print;
    PrintPrintable(COMPACT_UTF8, v);
    PrintStart(COMPACT_UTF8, v);
    assert forall i :: 0 <= i < |LineOf(v)| ==> InAlphabet(false, LineOf(v)[i]);
  }

  lemma {:induction false} StripLine(line: string)
    requires line != "" && '\n' !in line
    ensures Strip(line + "\n") == line && Strip(line) == line
  {
    assert line[0] in line && line[|line| - 1] in line;
    assert (line + "\n")[..|line|] == line;
    assert StripEnd(line) == line;
    assert (line + "\n")[0] == line[0];
  }

  /** The frame of a message is one line, and reads back as the message. */
  lemma {:induction false} FrameReads(v: Value)
    requires Plain(v)
    ensures Frame(v) != [] && Complete(Frame(v)) && FirstLine(Frame(v)) == Frame(v)
    ensures ReadLine(Frame(v)) == Message(LineOf(v), v)
  {
    hide Print, Loads, Encode, Decode, Plain;
    var line := LineOf(v);
    LineText(v);
    StripLine(line);
    DecodeEncode(line + "\n");
    LoadsDumps(COMPACT_UTF8, v);
    FrameBytes(line);
  }

  lemma {:induction false} FrameBytes(line: string)
    requires '\n' !in line
    ensures var f := Encode(line + "\n"); f == Encode(line) + [NEWLINE] && ByteEnd(f) == |f| - 1
    ensures NEWLINE !in Encode(line)
  {
    EncodeAppend(line, "\n");
    NewlineByte(line);
    assert Encode("\n") == [NEWLINE] by { assert "\n"[1..] == ""; }
    var f := Encode(line) + [NEWLINE];
    hide Encode;
    assert f[..|f| - 1] == Encode(line);
    ByteEndIs(f, |f| - 1);
  }

  /** Dumping, encoding and terminating, then splitting at 0x0A, decoding and parsing, is the
    identity on every sequence of messages. */
  lemma {:induction false} RoundTrip(vs: seq<Value>)
    requires forall i :: 0 <= i < |vs| ==> Plain(vs[i])
    ensures Messages(Frames(vs)) == vs
    ensures RawLines(Frames(vs)) == seq(|vs|, i requires 0 <= i < |vs| => Frame(vs[i]))
  {
    hide ReadLine, Frame, Plain;
    if vs != [] {
      FrameReads(vs[0]);
      RoundTrip(vs[1..]);
      MessagesAppend(Frame(vs[0]), Frames(vs[1..]));
      RawLinesAppend(Frame(vs[0]), Frames(vs[1..]));
      OneFrame(vs[0]);
      EachFramed(vs);
      assert [vs[0]] + vs[1..] == vs;
    }
  }

  lemma {:induction false} EachFramed(vs: seq<Value>)
    requires vs != []
    ensures seq(|vs|, i requires 0 <= i < |vs| => Frame(vs[i])) ==
            [Frame(vs[0])] + seq(|vs[1..]|, i requires 0 <= i < |vs[1..]| => Frame(vs[1..][i]))
  {
    hide Frame;
  }

  lemma {:induction false} OneFrame(v: Value)
    requires Plain(v)
    ensures RawLines(Frame(v)) == [Frame(v)] && Messages(Frame(v)) == [v]
  {
    hide ReadLine, Frame, Plain, FirstLine;
    FrameReads(v);
    CutRaw(Frame(v));
    assert Frame(v)[|Frame(v)|..] == [];
    assert RawLines([]) == [] && Received([]) == [];
    assert [Frame(v)][1..] == [];
  }

  // ---------- the same bytes through a text stream ----------

  /** The lines of a text-mode stdin: strict UTF-8 and universal newlines. */
  function TextLines(bytes: seq<Byte>): Option<seq<string>> {
    match Decode(bytes) case None => None case Some(text) => Some(Lines.FileLines(Lines.UniversalNewlines(text)))
  }

  /** An adapter's text-mode stdin sees the same one line in a frame. */
  lemma {:induction false} FrameTextLines(v: Value)
    requires Plain(v)
    ensures TextLines(Frame(v)) == Some([LineOf(v) + "\n"])
    ensures ReadText(LineOf(v) + "\n") == Message(LineOf(v), v)
  {
    hide Print, Loads, Encode, Decode, Plain, Lines.FileLines, Lines.UniversalNewlines;
    var line := LineOf(v);
    LineText(v);
    StripLine(line);
    LoadsDumps(COMPACT_UTF8, v);
    DecodeEncode(line + "\n");
    OneTextLine(line);
  }

  lemma {:induction false} OneTextLine(line: string)
    requires '\n' !in line && '\r' !in line
    ensures Lines.FileLines(Lines.UniversalNewlines(line + "\n")) == [line + "\n"]
  {
    var s := line + "\n";
    assert forall i :: 0 <= i < |line| ==> s[i] == line[i] && line[i] in line;
    Lines.UniversalKeeps(s);
    Lines.LineEndIs(s, true, |line|);
    Lines.CutFirstAtNewline(s, |line|);
    assert s[..|line| + 1] == s;
    assert Lines.FileLines("") == [];
    assert Lines.After(|line|, s) == "";
  }
}
