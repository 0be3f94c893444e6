/** The decoder undoes the encoder, in every style and in front of any text. */
module JsonRoundTrip {
  import opened Sequences
  import opened Json

  // ---------- strings ----------

  lemma {:induction false} HexDigitValue(d: int)
    requires 0 <= d < 16
    ensures HexValue(HexDigit(d)) == d
  {
  }

  lemma {:induction false} HexSum(n: int)
    requires 0 <= n < 0x10000
    ensures n / 0x1000 * 0x1000 + n / 0x100 % 16 * 0x100 + n / 16 % 16 * 16 + n % 16 == n
  {
    assert n / 0x100 == n / 16 / 16 && n / 0x1000 == n / 0x100 / 16;
  }

  lemma {:induction false} ScanHex4OfHex4(n: int, t: string)
    requires 0 <= n < 0x10000
    ensures ScanHex4(Hex4(n) + t) == Some(n)
  {
    var a, b, c, d := n / 0x1000, n / 0x100 % 16, n / 16 % 16, n % 16;
    HexDigitValue(a);
    HexDigitValue(b);
    HexDigitValue(c);
    HexDigitValue(d);
    var s := Hex4(n) + t;
    assert s[0] == HexDigit(a) && s[1] == HexDigit(b) && s[2] == HexDigit(c) && s[3] == HexDigit(d);
    HexSum(n);
  }

  lemma {:induction false} ScanUnicodeEscape(n: int, t: string)
    requires 0 <= n < 0x10000 && !(0xD800 <= n < 0xE000)
    ensures ScanChar(UnicodeEscape(n) + t) == Ok(n as char, t)
  {
    var s := UnicodeEscape(n) + t;
    assert s[2..] == Hex4(n) + t;
    ScanHex4OfHex4(n, t);
    assert s[1..][1..] == s[2..];
    assert s[2..][4..] == t;
  }

  lemma {:induction false} ScanSurrogatePair(c: char, t: string)
    requires c as int >= 0x10000
    ensures ScanChar(EscapeChar(true, c) + t) == Ok(c, t)
  {
    hide Hex4, ScanHex4;
    var hi, lo := 0xD800 + (c as int - 0x10000) / 0x400, 0xDC00 + (c as int - 0x10000) % 0x400;
    var s := EscapeChar(true, c) + t;
    assert s == UnicodeEscape(hi) + UnicodeEscape(lo) + t;
    TwoEscapes(hi, lo, t);
  }

  /** The text of two escapes, as the scanner cuts it. */
  lemma {:induction false} TwoEscapes(hi: int, lo: int, t: string)
    requires 0 <= hi < 0x10000 && 0 <= lo < 0x10000
    ensures var u := (UnicodeEscape(hi) + UnicodeEscape(lo) + t)[1..][1..];
            && |u| >= 10 && ScanHex4(u) == Some(hi) && u[4] == '\\' && u[5] == 'u'
            && ScanHex4(u[6..]) == Some(lo) && u[10..] == t && u[6..][4..] == t
  {
    hide Hex4, ScanHex4;
    var u := (UnicodeEscape(hi) + UnicodeEscape(lo) + t)[1..][1..];
    assert u == Hex4(hi) + (UnicodeEscape(lo) + t);
    ScanHex4OfHex4(hi, UnicodeEscape(lo) + t);
    assert u[6..] == Hex4(lo) + t;
    ScanHex4OfHex4(lo, t);
  }

  /** Section 7 of RFC 8259: the escape of one character reads back as that character. */
  lemma {:induction false} ScanEscapedChar(ascii: bool, c: char, t: string)
    ensures EscapeChar(ascii, c) != "" && EscapeChar(ascii, c)[0] != '"'
    ensures ScanChar(EscapeChar(ascii, c) + t) == Ok(c, t)
  {
    hide ScanChar;
    var e := EscapeChar(ascii, c);
    if |e| <= 2 {
      ScanShort(ascii, c, t);
    } else if c < ' ' || (c as int) < 0x10000 {
      ScanUnicodeEscape(c as int, t);
    } else {
      ScanSurrogatePair(c, t);
    }
  }

  /** The characters that stand for themselves or are escaped by one letter. */
  lemma {:induction false} ScanShort(ascii: bool, c: char, t: string)
    requires |EscapeChar(ascii, c)| <= 2
    ensures ScanChar(EscapeChar(ascii, c) + t) == Ok(c, t)
  {
    hide ScanUnicode, Hex4;
    var e := EscapeChar(ascii, c);
    if |e| == 1 {
      assert (e + t)[1..] == t;
    } else {
      assert (e + t)[1..][1..] == t;
    }
  }

  lemma {:induction false} ScanStringStep(s: string, c: char, rest: string, text: string, t: string)
    requires s != "" && s[0] != '"' && ScanChar(s) == Ok(c, rest) && ScanString(rest) == Ok(text, t)
    ensures ScanString(s) == Ok([c] + text, t)
  {
    hide ScanChar;
  }

  lemma {:induction false} ScanQuote(u: string)
    requires u != "" && u[0] == '"'
    ensures ScanString(u) == Ok("", u[1..]) && "" + u == u
  {
  }

  /** `u` is the closing quote and what follows. */
  lemma {:induction false} ScanEscapedTo(ascii: bool, text: string, u: string)
    requires u != "" && u[0] == '"'
    ensures ScanString(Escape(ascii, text) + u) == Ok(text, u[1..])
  {
    hide EscapeChar, ScanChar, ScanString;
    if text == "" {
      ScanQuote(u);
    } else {
      var e, more := EscapeChar(ascii, text[0]), Escape(ascii, text[1..]);
      ScanEscapedChar(ascii, text[0], more + u);
      ScanEscapedTo(ascii, text[1..], u);
      ScanStringStep(e + (more + u), text[0], more + u, text[1..], u[1..]);
      Associative(e, more, u);
      assert [text[0]] + text[1..] == text;
    }
  }

  lemma {:induction false} ScanEscaped(ascii: bool, text: string, t: string)
    ensures ScanString(Escape(ascii, text) + "\"" + t) == Ok(text, t)
  {
    hide *;
    ScanEscapedTo(ascii, text, "\"" + t);
    Associative(Escape(ascii, text), "\"", t);
    assert ("\"" + t)[1..] == t;
  }

  // ---------- numbers ----------

  /** A text that cannot continue a number. */
  predicate NumberEnd(t: string) {
    t == "" || !(IsDigit(t[0]) || t[0] == '.' || t[0] == 'e' || t[0] == 'E')
  }

  ghost predicate AllDigits(d: string) {
    forall i :: 0 <= i < |d| ==> IsDigit(d[i])
  }

  lemma {:induction false} DigitsOf(d: string, t: string)
    requires AllDigits(d) && (t == "" || !IsDigit(t[0]))
    ensures Digits(d + t) == |d|
  {
    if d == "" {
      assert d + t == t;
    } else {
      assert (d + t)[1..] == d[1..] + t;
      assert IsDigit((d + t)[0]);
      DigitsOf(d[1..], t);
    }
  }

  lemma {:induction false} ScanDigits(d: string, t: string)
    requires AllDigits(d) && d != "" && (d[0] == '0' ==> |d| == 1)
    requires NumberEnd(t)
    ensures ScanUnsigned(d + t) == Ok(Num(DigitsValue(d)), t)
  {
    var s := d + t;
    DigitsOf(d, t);
    assert s[0] == d[0] && IsDigit(d[0]);
    assert s[|d|..] == t && s[..|d|] == d;
    assert FractionLength(t) == 0 && t[0..] == t && ExponentLength(t) == 0;
  }

  lemma {:induction false} NatTextIsDecimal(n: nat)
    ensures AllDigits(NatText(n)) && NatText(n) != ""
    ensures NatText(n)[0] == '0' ==> n == 0
    ensures DigitsValue(NatText(n)) == n
    ensures n < 10 ==> |NatText(n)| == 1
  {
    var d := NatText(n);
    if n < 10 {
      assert d[..0] == "";
    } else {
      NatTextIsDecimal(n / 10);
      assert d[..|d| - 1] == NatText(n / 10);
    }
  }

  lemma {:induction false} ParseDigitFirst(s: string)
    requires s != "" && IsDigit(s[0])
    ensures Parse(s) == ScanUnsigned(s)
  {
    hide ScanUnsigned, ScanString, ParseItems, ParseFields, Word;
    assert "-Infinity"[0] != s[0];
    assert !("-Infinity" <= s);
  }

  lemma {:induction false} ParseMinusFirst(u: string)
    requires u != "" && IsDigit(u[0])
    ensures Parse("-" + u) == ScanNumber("-" + u)
  {
    assert "-Infinity"[1] != ("-" + u)[1];
    assert !("-Infinity" <= "-" + u);
  }

  lemma {:induction false} ScanMinus(u: string, n: nat, t: string)
    requires ScanUnsigned(u) == Ok(Num(n), t)
    ensures ScanNumber("-" + u) == Parsed<Value>.Ok(Num(0 - n), t)
  {
    assert ("-" + u)[1..] == u;
  }

  lemma {:induction false} ScanIntText(n: int, t: string)
    requires NumberEnd(t)
    ensures Parse(IntText(n) + t) == Ok(Num(n), t)
  {
    hide Parse, ScanUnsigned, ScanNumber;
    var m := if n < 0 then -n else n;
    NatTextIsDecimal(m);
    ScanDigits(NatText(m), t);
    var u := NatText(m) + t;
    assert u[0] == NatText(m)[0] && IsDigit(u[0]);
    if n < 0 {
      assert IntText(n) + t == "-" + u;
      ParseMinusFirst(u);
      ScanMinus(u, m, t);
    } else {
      ParseDigitFirst(u);
    }
  }

  // ---------- dict construction ----------

  lemma {:induction false} AssignNew(fields: seq<Field>, key: string, v: Value)
    requires forall i :: 0 <= i < |fields| ==> fields[i].key != key
    ensures Assign(fields, key, v) == fields + [Field(key, v)]
  {
    if fields != [] {
      AssignNew(fields[1..], key, v);
    }
  }

  lemma {:induction false} FromDistinctPairs(pairs: seq<Field>)
    requires Distinct(pairs)
    ensures FromPairs(pairs) == pairs
  {
    if pairs != [] {
      var n := |pairs| - 1;
      FromDistinctPairs(pairs[..n]);
      AssignNew(pairs[..n], pairs[n].key, pairs[n].value);
      assert pairs == pairs[..n] + [pairs[n]];
    }
  }

  // ---------- values ----------

  /** A printed value starts with neither white space nor a closing bracket. */
  lemma {:induction false} PrintStart(st: Style, v: Value)
    requires Plain(v)
    ensures Print(st, v) != ""
    ensures !IsSpace(Print(st, v)[0]) && Print(st, v)[0] != ']'
  {
    match v
    case Num(n) => NatTextIsDecimal(if n < 0 then -n else n);
      assert IsDigit(NatText(if n < 0 then -n else n)[0]);
    case _ =>
  }

  lemma {:induction false} SkipGap(st: Style, s: string)
    requires s != "" && !IsSpace(s[0])
    ensures SkipSpace(st.Gap() + s) == s
  {
    if st.spaced {
      assert (" " + s)[1..] == s;
    } else {
      assert st.Gap() + s == s;
    }
  }

  lemma {:induction false} SkipNothing(s: string)
    requires s != "" && !IsSpace(s[0])
    ensures SkipSpace(s) == s
  {
  }

  lemma {:induction false} ParseWord(st: Style, v: Value, t: string)
    requires v.Null? || v.Bool?
    ensures Parse(Print(st, v) + t) == Ok(v, t)
  {
    var word := Print(st, v);
    assert word <= word + t && (word + t)[|word|..] == t;
  }

  lemma {:induction false} ParseString(st: Style, text: string, t: string)
    ensures Parse(Print(st, Str(text)) + t) == Ok(Str(text), t)
  {
    hide Escape, ScanString;
    var s := Print(st, Str(text)) + t;
    assert s[0] == '"' && s[1..] == Escape(st.ascii, text) + "\"" + t;
    ScanEscaped(st.ascii, text, t);
  }

  lemma {:induction false} ParseBracket(body: string)
    requires body != "" && !IsSpace(body[0]) && body[0] != ']'
    ensures Parse("[" + body) ==
            match ParseItems(body) { case Bad => Bad case Ok(items, rest) => Ok(Arr(items), rest) }
  {
    assert ("[" + body)[1..] == body;
  }

  lemma {:induction false} ParseBrace(body: string)
    requires body != "" && !IsSpace(body[0]) && body[0] != '}'
    ensures Parse("{" + body) ==
            match ParseFields(body) { case Bad => Bad case Ok(pairs, rest) => Ok(Obj(FromPairs(pairs)), rest) }
  {
    assert ("{" + body)[1..] == body;
  }

  lemma {:induction false} ParseEmpty(t: string)
    ensures Parse("[]" + t) == Ok(Arr([]), t)
    ensures Parse("{}" + t) == Ok(Obj([]), t)
  {
    assert ("[]" + t)[1..] == "]" + t && ("]" + t)[1..] == t;
    assert ("{}" + t)[1..] == "}" + t && ("}" + t)[1..] == t;
  }

  /** `Parse` reads back a printed value and stops right after it. */
  lemma {:induction false} ParsePrinted(st: Style, v: Value, t: string)
    requires Plain(v)
    requires v.Num? ==> NumberEnd(t)
    ensures Parse(Print(st, v) + t) == Ok(v, t)
    decreases v, 1
  {
    hide Parse, PrintItems, PrintFields, Escape;
    match v
    case Null => ParseWord(st, v, t);
    case Bool(_) => ParseWord(st, v, t);
    case Num(n) => ScanIntText(n, t);
    case Str(text) => ParseString(st, text, t);
    case Arr(items) => ParsePrintedArray(st, items, t);
    case Obj(fields) => ParsePrintedObject(st, fields, t);
  }

  lemma {:induction false} ParsePrintedArray(st: Style, items: seq<Value>, t: string)
    requires forall i :: 0 <= i < |items| ==> Plain(items[i])
    ensures Parse(Print(st, Arr(items)) + t) == Ok(Arr(items), t)
    decreases items, 1
  {
    hide Parse, ParseItems, PrintItems;
    if items == [] {
      ParseEmpty(t);
    } else {
      var body := PrintItems(st, items) + t;
      assert Print(st, Arr(items)) + t == "[" + body;
      PrintStart(st, items[0]);
      PrintItemsShape(st, items, t);
      ParseBracket(body);
      ParsePrintedItems(st, items, t);
    }
  }

  lemma {:induction false} ParsePrintedObject(st: Style, fields: seq<Field>, t: string)
    requires PlainFields(fields)
    ensures Parse(Print(st, Obj(fields)) + t) == Ok(Obj(fields), t)
    decreases fields, 1
  {
    hide Parse, ParseFields, PrintFields, FromPairs;
    if fields == [] {
      ParseEmpty(t);
    } else {
      var body := PrintFields(st, fields) + t;
      assert Print(st, Obj(fields)) + t == "{" + body;
      PrintFieldsShape(st, fields, t);
      ParseBrace(body);
      ParsePrintedFields(st, fields, t);
      FromDistinctPairs(fields);
    }
  }

  lemma {:induction false} ParseLastItem(s: string, v: Value, t: string)
    requires Parse(s) == Ok(v, "]" + t)
    ensures ParseItems(s) == Ok([v], t)
  {
    SkipNothing("]" + t);
    assert ("]" + t)[1..] == t;
  }

  lemma {:induction false} ParseNextItem(st: Style, s: string, v: Value, more: string)
    requires Parse(s) == Ok(v, "," + (st.Gap() + more))
    requires more != "" && !IsSpace(more[0])
    ensures ParseItems(s) ==
            match ParseItems(more) { case Bad => Bad case Ok(vs, rest) => Ok([v] + vs, rest) }
  {
    var next := "," + (st.Gap() + more);
    SkipNothing(next);
    assert next[1..] == st.Gap() + more;
    SkipGap(st, more);
  }

  /** The printed items: the first one, then the closing bracket or a comma and the rest. */
  lemma {:induction false} PrintItemsShape(st: Style, items: seq<Value>, t: string)
    requires items != [] && Plain(items[0])
    ensures PrintItems(st, items) + t ==
            Print(st, items[0]) + if |items| == 1 then "]" + t else "," + (st.Gap() + (PrintItems(st, items[1..]) + t))
    ensures PrintItems(st, items) != "" && PrintItems(st, items)[0] == Print(st, items[0])[0]
  {
    hide Print, Plain;
    PrintStart(st, items[0]);
    if |items| > 1 {
      JoinFour(Print(st, items[0]), ",", st.Gap(), PrintItems(st, items[1..]), t);
    }
  }

  lemma {:induction false} JoinFour(a: string, b: string, c: string, d: string, e: string)
    ensures a + (b + c + d) + e == a + (b + (c + (d + e)))
  {
  }

  lemma {:induction false} EndsNumber(mark: string, t: string)
    requires mark == "," || mark == "]" || mark == "}"
    ensures NumberEnd(mark + t)
  {
  }

  lemma {:induction false} ParsePrintedItems(st: Style, items: seq<Value>, t: string)
    requires items != [] && forall i :: 0 <= i < |items| ==> Plain(items[i])
    ensures ParseItems(PrintItems(st, items) + t) == Ok(items, t)
    decreases items, 0
  {
    hide *;
    var s := PrintItems(st, items) + t;
    PrintItemsShape(st, items, t);
    if |items| == 1 {
      EndsNumber("]", t);
      ParsePrinted(st, items[0], "]" + t);
      ParseLastItem(s, items[0], t);
      assert items == [items[0]];
    } else {
      var more := PrintItems(st, items[1..]) + t;
      var next := "," + (st.Gap() + more);
      EndsNumber(",", st.Gap() + more);
      ParsePrinted(st, items[0], next);
      PrintStart(st, items[1]);
      PrintItemsShape(st, items[1..], t);
      ParseNextItem(st, s, items[0], more);
      ParsePrintedItems(st, items[1..], t);
      assert [items[0]] + items[1..] == items;
    }
  }

  lemma {:induction false} ParseAfterColon(s: string, key: string, colon: string, tail: string)
    requires s != "" && s[0] == '"' && ScanString(s[1..]) == Ok(key, colon)
    requires colon != "" && colon[0] == ':' && SkipSpace(colon[1..]) == tail
    ensures ParseFields(s) == ParseMember(key, tail)
  {
    SkipNothing(colon);
  }

  /** Reading the key and the colon of a member leaves its value. */
  lemma {:induction false} ParseKey(st: Style, key: string, tail: string)
    requires tail != "" && !IsSpace(tail[0])
    ensures ParseFields(Quote(st.ascii, key) + (":" + (st.Gap() + tail))) == ParseMember(key, tail)
  {
    hide Parse, ParseFields, ParseMember, ScanString, Escape;
    var colon := ":" + (st.Gap() + tail);
    var s := Quote(st.ascii, key) + colon;
    assert s[1..] == Escape(st.ascii, key) + "\"" + colon;
    ScanEscaped(st.ascii, key, colon);
    assert colon[1..] == st.Gap() + tail;
    SkipGap(st, tail);
    ParseAfterColon(s, key, colon, tail);
  }

  lemma {:induction false} ParseLastMember(key: string, tail: string, v: Value, t: string)
    requires Parse(tail) == Ok(v, "}" + t)
    ensures ParseMember(key, tail) == Ok([Field(key, v)], t)
  {
    SkipNothing("}" + t);
    assert ("}" + t)[1..] == t;
  }

  lemma {:induction false} ParseNextMember(st: Style, key: string, tail: string, v: Value, more: string)
    requires Parse(tail) == Ok(v, "," + (st.Gap() + more))
    requires more != "" && !IsSpace(more[0])
    ensures ParseMember(key, tail) ==
            match ParseFields(more) { case Bad => Bad case Ok(fs, rest) => Ok([Field(key, v)] + fs, rest) }
  {
    hide Parse, ParseFields;
    var next := "," + (st.Gap() + more);
    SkipNothing(next);
    assert next[1..] == st.Gap() + more;
    SkipGap(st, more);
  }

  lemma {:induction false} JoinMember(q: string, gap: string, v: string, next: string, t: string)
    ensures q + ":" + gap + v + next + t == q + (":" + (gap + (v + (next + t))))
  {
  }

  lemma {:induction false} JoinThree(gap: string, more: string, t: string)
    ensures "," + gap + more + t == "," + (gap + (more + t))
  {
  }

  lemma {:induction false} PrintFieldsShape(st: Style, fields: seq<Field>, t: string)
    requires fields != []
    ensures PrintFields(st, fields) + t ==
            var next := if |fields| == 1 then "}" + t else "," + (st.Gap() + (PrintFields(st, fields[1..]) + t));
            Quote(st.ascii, fields[0].key) + (":" + (st.Gap() + (Print(st, fields[0].value) + next)))
    ensures PrintFields(st, fields) != "" && PrintFields(st, fields)[0] == '"'
  {
    hide Print, Escape;
    var q, v := Quote(st.ascii, fields[0].key), Print(st, fields[0].value);
    if |fields| == 1 {
      JoinMember(q, st.Gap(), v, "}", t);
    } else {
      var more := PrintFields(st, fields[1..]);
      JoinMember(q, st.Gap(), v, "," + st.Gap() + more, t);
      JoinThree(st.Gap(), more, t);
    }
  }

  lemma {:induction false} QuoteIsNoSpace()
    ensures !IsSpace('"')
  {
  }

  lemma {:induction false} ParsePrintedFields(st: Style, fields: seq<Field>, t: string)
    requires fields != [] && forall i :: 0 <= i < |fields| ==> Plain(fields[i].value)
    ensures ParseFields(PrintFields(st, fields) + t) == Ok(fields, t)
    decreases fields, 0
  {
    hide *;
    var key, v := fields[0].key, fields[0].value;
    PrintFieldsShape(st, fields, t);
    PrintStart(st, v);
    if |fields| == 1 {
      var tail := Print(st, v) + ("}" + t);
      EndsNumber("}", t);
      ParseKey(st, key, tail);
      ParsePrinted(st, v, "}" + t);
      ParseLastMember(key, tail, v, t);
      assert fields == [Field(key, v)];
    } else {
      var more := PrintFields(st, fields[1..]) + t;
      var next := "," + (st.Gap() + more);
      var tail := Print(st, v) + next;
      ParseKey(st, key, tail);
      EndsNumber(",", st.Gap() + more);
      ParsePrinted(st, v, next);
      PrintFieldsShape(st, fields[1..], t);
      QuoteIsNoSpace();
      ParseNextMember(st, key, tail, v, more);
      ParsePrintedFields(st, fields[1..], t);
      assert [fields[0]] + fields[1..] == fields;
    }
  }

  /** `json.loads(json.dumps(v)) == v`, key order included, also with a line end after it. */
  lemma {:induction false} LoadsDumps(st: Style, v: Value)
    requires Plain(v)
    ensures Loads(Print(st, v)) == Some(v)
    ensures Loads(Print(st, v) + "\n") == Some(v)
  {
    PrintStart(st, v);
    ParsePrinted(st, v, "");
    assert Print(st, v) + "" == Print(st, v);
    ParsePrinted(st, v, "\n");
    assert SkipSpace("\n") == "" by { assert "\n"[1..] == ""; }
  }
}
