/** UTF-8 as section 3 of RFC 3629 has it: Python's strict encoder and decoder. */
module Utf8 {
  import opened Sequences
  import opened Json

  type Byte = b: int | 0 <= b < 256

  const NEWLINE: Byte := 0x0A

  function EncodeChar(c: char): (bytes: seq<Byte>)
    ensures 1 <= |bytes| <= 4
  {
    var n := c as int;
    if n < 0x80 then [n]
    else if n < 0x800 then [0xC0 + n / 0x40, 0x80 + n % 0x40]
    else if n < 0x10000 then [0xE0 + n / 0x40 / 0x40, 0x80 + n / 0x40 % 0x40, 0x80 + n % 0x40]
    else [0xF0 + n / 0x40 / 0x40 / 0x40, 0x80 + n / 0x40 / 0x40 % 0x40, 0x80 + n / 0x40 % 0x40, 0x80 + n % 0x40]
  }

  function Encode(s: string): seq<Byte> {
    if s == "" then [] else EncodeChar(s[0]) + Encode(s[1..])
  }

  predicate IsContinuation(b: Byte) { 0x80 <= b < 0xC0 }

  /** The first character and its length; overlong forms, surrogates and values past 0x10FFFF are errors. */
  function DecodeChar(bytes: seq<Byte>): (r: Option<(char, nat)>)
    requires bytes != []
    ensures r.Some? ==> 1 <= r.value.1 <= |bytes|
  {
    var b: int := bytes[0];
    if b < 0x80 then Some((b as char, 1))
    else if 0xC2 <= b < 0xE0 then
      if |bytes| >= 2 && IsContinuation(bytes[1]) then Some((Push(b - 0xC0, bytes[1]) as char, 2)) else None
    else if 0xE0 <= b < 0xF0 then
      if |bytes| >= 3 && IsContinuation(bytes[1]) && IsContinuation(bytes[2]) then
        var n := Push(Push(b - 0xE0, bytes[1]), bytes[2]);
        if n < 0x800 || 0xD800 <= n < 0xE000 then None else Some((n as char, 3))
      else None
    else if 0xF0 <= b < 0xF5 then
      if |bytes| >= 4 && IsContinuation(bytes[1]) && IsContinuation(bytes[2]) && IsContinuation(bytes[3]) then
        var n := Push(Push(Push(b - 0xF0, bytes[1]), bytes[2]), bytes[3]);
        if n < 0x10000 || 0x110000 <= n then None else Some((n as char, 4))
      else None
    else None
  }

  /** Six more bits. */
  function Push(n: int, b: Byte): int { n * 0x40 + (b - 0x80) }

  function Decode(bytes: seq<Byte>): Option<string>
    decreases |bytes|
  {
    if bytes == [] then Some("")
    else
      match DecodeChar(bytes)
      case None => None
      case Some((c, n)) =>
        match Decode(bytes[n..])
        case None => None
        case Some(s) => Some([c] + s)
  }

  // ---------- the table of section 3 ----------

  /** Six bits of a character in a byte that continues one. */
  predicate Tail(b: Byte, bits: int) { 0 <= bits < 0x40 && b == 0x80 + bits }

  /** A character's bits, from the highest down, in one to four bytes: as few as it needs. */
  predicate Octets(bytes: seq<Byte>, n: int, a: int, b: int, c: int, d: int) {
    || (bytes == [n] && n < 0x80)
    || (&& |bytes| == 2 && 0x80 <= n < 0x800 && n == a * 0x40 + b
        && 0 <= a < 0x20 && bytes[0] == 0xC0 + a && Tail(bytes[1], b))
    || (&& |bytes| == 3 && 0x800 <= n < 0x10000 && n == (a * 0x40 + b) * 0x40 + c
        && 0 <= a < 0x10 && bytes[0] == 0xE0 + a && Tail(bytes[1], b) && Tail(bytes[2], c))
    || (&& |bytes| == 4 && 0x10000 <= n < 0x110000 && n == ((a * 0x40 + b) * 0x40 + c) * 0x40 + d
        && 0 <= a < 0x8 && bytes[0] == 0xF0 + a && Tail(bytes[1], b) && Tail(bytes[2], c) && Tail(bytes[3], d))
  }

  lemma {:induction false} EncodeCharIs(c: char) returns (a: int, b: int, d: int, e: int)
    ensures Octets(EncodeChar(c), c as int, a, b, d, e)
  {
    var n := c as int;
    e := n % 0x40;
    d, b, a := n / 0x40 % 0x40, n / 0x40 / 0x40 % 0x40, n / 0x40 / 0x40 / 0x40;
    if n < 0x800 {
      a, b := n / 0x40, e;
    } else if n < 0x10000 {
      a, b, d := n / 0x40 / 0x40, d, e;
    }
  }

  /** Characters one after the other. */
  lemma {:induction false} EncodeIs(c: char, s: string)
    ensures Encode("") == [] && Encode([c] + s) == EncodeChar(c) + Encode(s)
  {
    hide EncodeChar;
    assert ([c] + s)[1..] == s;
  }

  // ---------- round trips ----------

  lemma {:induction false} PushSplits(n: int, b: Byte)
    requires n >= 0 && IsContinuation(b)
    ensures Push(n, b) / 0x40 == n && Push(n, b) % 0x40 == b - 0x80
  {
  }

  lemma {:induction false} SplitPushes(n: int)
    requires n >= 0
    ensures IsContinuation(0x80 + n % 0x40) && Push(n / 0x40, 0x80 + n % 0x40) == n
  {
  }

  lemma {:induction false} DecodeEncodedChar(c: char, more: seq<Byte>)
    ensures DecodeChar(EncodeChar(c) + more) == Some((c, |EncodeChar(c)|))
  {
    var n := c as int;
    SplitPushes(n);
    SplitPushes(n / 0x40);
    SplitPushes(n / 0x40 / 0x40);
    hide Push, IsContinuation;
  }

  /** Both decoders take the code point apart again. */
  lemma {:induction false} EncodeDecodedChar(bytes: seq<Byte>)
    requires bytes != [] && DecodeChar(bytes).Some?
    ensures var (c, n) := DecodeChar(bytes).value; EncodeChar(c) == bytes[..n]
  {
    var b: int := bytes[0];
    if b < 0x80 {
    } else if b < 0xE0 {
      Encoded2(b, bytes[1]);
    } else if b < 0xF0 {
      Encoded3(b, bytes[1], bytes[2]);
    } else {
      Encoded4(b, bytes[1], bytes[2], bytes[3]);
    }
  }

  lemma {:induction false} Encoded2(b: int, x: Byte)
    requires 0xC2 <= b < 0xE0 && IsContinuation(x)
    ensures EncodeChar(Push(b - 0xC0, x) as char) == [b, x]
  {
    PushSplits(b - 0xC0, x);
  }

  lemma {:induction false} Encoded3(b: int, x: Byte, y: Byte)
    requires 0xE0 <= b < 0xF0 && IsContinuation(x) && IsContinuation(y)
    requires var n := Push(Push(b - 0xE0, x), y); 0x800 <= n < 0xD800 || 0xE000 <= n < 0x10000
    ensures EncodeChar(Push(Push(b - 0xE0, x), y) as char) == [b, x, y]
  {
    PushSplits(b - 0xE0, x);
    PushSplits(Push(b - 0xE0, x), y);
    hide Push;
  }

  lemma {:induction false} Encoded4(b: int, x: Byte, y: Byte, z: Byte)
    requires 0xF0 <= b < 0xF5 && IsContinuation(x) && IsContinuation(y) && IsContinuation(z)
    requires 0x10000 <= Push(Push(Push(b - 0xF0, x), y), z) < 0x110000
    ensures EncodeChar(Push(Push(Push(b - 0xF0, x), y), z) as char) == [b, x, y, z]
  {
    PushSplits(b - 0xF0, x);
    PushSplits(Push(b - 0xF0, x), y);
    PushSplits(Push(Push(b - 0xF0, x), y), z);
    hide Push;
  }

  lemma {:induction false} DecodeEncode(s: string)
    ensures Decode(Encode(s)) == Some(s)
  {
    if s != "" {
      DecodeEncodedChar(s[0], Encode(s[1..]));
      DecodeEncode(s[1..]);
      var n := |EncodeChar(s[0])|;
      assert Encode(s)[n..] == Encode(s[1..]);
      assert [s[0]] + s[1..] == s;
      hide EncodeChar, DecodeChar, Encode;
    }
  }

  /** The decoder is strict: each byte string is the encoding of at most one text. */
  lemma {:induction false} EncodeDecode(bytes: seq<Byte>)
    requires Decode(bytes).Some?
    ensures Encode(Decode(bytes).value) == bytes
    decreases |bytes|
  {
    hide DecodeChar, EncodeChar;
    if bytes != [] {
      var (c, n) := DecodeChar(bytes).value;
      EncodeDecodedChar(bytes);
      EncodeDecode(bytes[n..]);
      var s := Decode(bytes[n..]).value;
      assert ([c] + s)[1..] == s;
      assert bytes == bytes[..n] + bytes[n..];
    }
  }

  lemma {:induction false} EncodeAppend(s: string, t: string)
    ensures Encode(s + t) == Encode(s) + Encode(t)
  {
    if s == "" {
      assert s + t == t;
    } else {
      assert (s + t)[1..] == s[1..] + t;
      EncodeAppend(s[1..], t);
      Associative(EncodeChar(s[0]), Encode(s[1..]), Encode(t));
      hide EncodeChar;
    }
  }

  // ---------- the byte 0x0A ----------

  lemma {:induction false} NewlineChar(c: char)
    ensures NEWLINE in EncodeChar(c) <==> c == '\n'
  {
  }

  /** The byte 0x0A stands for "\n" and nothing else. */
  lemma {:induction false} NewlineByte(s: string)
    ensures NEWLINE in Encode(s) <==> '\n' in s
  {
    if s != "" {
      NewlineChar(s[0]);
      NewlineByte(s[1..]);
      hide EncodeChar;
      assert '\n' in s <==> s[0] == '\n' || '\n' in s[1..];
    }
  }

  /** The text has a line end that begins at byte `i`, after `k` characters. */
  predicate NewlineAfter(s: string, k: nat, i: nat) { k < |s| && s[k] == '\n' && |Encode(s[..k])| == i }

  lemma {:induction false} NewlineFirst(c: char, i: nat)
    requires i < |EncodeChar(c)|
    ensures EncodeChar(c)[i] == NEWLINE <==> c == '\n'
    ensures c == '\n' ==> i == 0
  {
  }

  lemma {:induction false} NewlineAfterNext(s: string, k: nat, i: nat, t: string, j: nat)
    requires s != "" && t == s[1..] && i == |EncodeChar(s[0])| + j
    ensures NewlineAfter(s, k + 1, i) <==> NewlineAfter(t, k, j)
    ensures !NewlineAfter(s, 0, i)
  {
    hide EncodeChar;
    assert k < |t| ==> s[..k + 1][1..] == t[..k] && s[..k + 1][0] == s[0];
    assert s[..0] == "";
  }

  lemma {:induction false} LaterNewline(s: string, i: nat, t: string, j: nat)
    requires s != "" && t == s[1..] && i == |EncodeChar(s[0])| + j
    ensures (exists k: nat :: NewlineAfter(s, k, i)) <==> (exists k: nat :: NewlineAfter(t, k, j))
  {
    hide EncodeChar, NewlineAfter;
    NewlineAfterNext(s, 0, i, t, j);
    forall k: nat | NewlineAfter(s, k, i) ensures exists m: nat :: NewlineAfter(t, m, j) {
      NewlineAfterNext(s, k - 1, i, t, j);
    }
    forall k: nat | NewlineAfter(t, k, j) ensures exists m: nat :: NewlineAfter(s, m, i) {
      NewlineAfterNext(s, k, i, t, j);
    }
  }

  lemma {:induction false} FirstNewline(s: string, k: nat, i: nat)
    requires s != "" && i < |EncodeChar(s[0])|
    ensures NewlineAfter(s, k, i) <==> k == 0 && i == 0 && s[0] == '\n'
  {
    hide EncodeChar;
    assert s[..0] == "";
    assert 0 < k < |s| ==> s[..k][0] == s[0];
  }

  /** The bytes 0x0A of an encoding are where its text has a "\n", and nowhere else. */
  lemma {:induction false} NewlineAt(s: string, i: nat)
    requires i < |Encode(s)|
    ensures Encode(s)[i] == NEWLINE <==> exists k: nat :: NewlineAfter(s, k, i)
  {
    hide EncodeChar, NewlineAfter;
    var n := |EncodeChar(s[0])|;
    if i < n {
      NewlineFirst(s[0], i);
      assert Encode(s)[i] == EncodeChar(s[0])[i];
      FirstNewline(s, 0, i);
      forall k: nat ensures NewlineAfter(s, k, i) <==> k == 0 && i == 0 && s[0] == '\n' { FirstNewline(s, k, i); }
    } else {
      NewlineAt(s[1..], i - n);
      LaterNewline(s, i, s[1..], i - n);
    }
  }
}
