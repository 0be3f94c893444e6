/** How the decoder reacts to torn text and to text that goes on.

  A proper prefix of a printed object is not valid JSON; a value that was read stays read
  when the text continues with a character that cannot be part of a number. */
module JsonPrefix {
  import opened Json
  import opened JsonRoundTrip

  // ---------- proper prefixes are rejected ----------

  ghost predicate Torn(p: string, whole: string) {
    p <= whole && |p| < |whole|
  }

  /** A prefix of `a + b` ends inside `a` or reaches into `b`. */
  lemma {:induction false} TornSplit(p: string, a: string, b: string)
    requires Torn(p, a + b)
    ensures Torn(p, a) || (p == a + p[|a|..] && Torn(p[|a|..], b))
  {
    if |p| < |a| {
      assert p == (a + b)[..|p|] == a[..|p|];
    } else {
      assert p[..|a|] == (a + b)[..|a|] == a;
      assert p[|a|..] == (a + b)[|a|..|p|] == b[..|p| - |a|];
    }
  }

  lemma {:induction false} TornEscape(ascii: bool, c: char, q: string)
    requires Torn(q, EscapeChar(ascii, c))
    ensures ScanChar(q).Bad?
  {
    var e := EscapeChar(ascii, c);
    if q != "" {
      assert q[0] == e[0] == '\\';
      assert |e| >= 2;
      if |q| > 1 {
        assert q[1] == e[1] == 'u';
        var u := q[1..][1..];
        assert u == q[2..];
        if |e| > 6 && |q| >= 6 {
          var hi := 0xD800 + (c as int - 0x10000) / 0x400;
          assert u == Hex4(hi) + q[6..];
          ScanHex4OfHex4(hi, q[6..]);
        }
      }
    }
  }

  lemma {:induction false} TornString(ascii: bool, text: string, q: string)
    requires Torn(q, Escape(ascii, text) + "\"")
    ensures ScanString(q).Bad?
  {
    if text == "" {
      assert q == "";
    } else {
      var e, tail := EscapeChar(ascii, text[0]), Escape(ascii, text[1..]) + "\"";
      assert Escape(ascii, text) + "\"" == e + tail;
      TornSplit(q, e, tail);
      ScanEscapedChar(ascii, text[0], q);
      if Torn(q, e) {
        TornEscape(ascii, text[0], q);
        assert q == "" || q[0] == e[0];
      } else {
        ScanEscapedChar(ascii, text[0], q[|e|..]);
        TornString(ascii, text[1..], q[|e|..]);
        assert q[0] == e[0];
      }
    }
  }

  /** Torn in the middle of a number, the rest can still be a number, with nothing after it. */
  predicate Unfinished<T>(r: Parsed<T>) {
    r.Bad? || r.rest == ""
  }

  lemma {:induction false} MinusAloneIsBad()
    ensures Parse("-").Bad?
  {
    assert !("-Infinity" <= "-") && "-"[1..] == "";
  }

  lemma {:induction false} TornNumber(n: int, p: string)
    requires Torn(p, IntText(n))
    ensures Unfinished(Parse(p))
  {
    hide Parse, ScanUnsigned, ScanNumber, NatText;
    var m := if n < 0 then -n else n;
    NatTextIsDecimal(m);
    var d := if n < 0 && p != "" then p[1..] else p;
    assert Torn(d, NatText(m)) || (n < 0 && p == "");
    if d != "" {
      assert d[0] == NatText(m)[0];
      assert forall i :: 0 <= i < |d| ==> d[i] == NatText(m)[i];
      assert d[0] == '0' ==> m == 0;
      ScanDigits(d, "");
      assert d + "" == d;
      if n < 0 {
        assert p == "-" + d;
        ParseMinusFirst(d);
        ScanMinus(d, DigitsValue(d), "");
      } else {
        ParseDigitFirst(d);
      }
    } else if p == "" {
      EmptyIsBad();
    } else {
      assert p == "-";
      MinusAloneIsBad();
    }
  }

  lemma {:induction false} TornValue(st: Style, v: Value, p: string)
    requires Plain(v) && !st.spaced && Torn(p, Print(st, v))
    ensures Unfinished(Parse(p))
    ensures !v.Num? ==> Parse(p).Bad?
    decreases v, 1
  {
    if p != "" {
      assert p[0] == Print(st, v)[0];
      match v
      case Null =>
      case Bool(_) =>
      case Num(n) => TornNumber(n, p);
      case Str(text) =>
        assert Torn(p[1..], Escape(st.ascii, text) + "\"");
        TornString(st.ascii, text, p[1..]);
      case Arr(items) => TornArray(st, items, p);
      case Obj(fields) => TornObject(st, fields, p);
    }
  }

  lemma {:induction false} TornArray(st: Style, items: seq<Value>, p: string)
    requires forall i :: 0 <= i < |items| ==> Plain(items[i])
    requires !st.spaced && p != "" && Torn(p, Print(st, Arr(items)))
    ensures Parse(p).Bad?
    decreases items, 1
  {
    var q := p[1..];
    assert p[0] == '[';
    if q == "" {
      assert Parse(q).Bad?;
    } else {
      assert items != [];
      assert Torn(q, PrintItems(st, items));
      PrintStart(st, items[0]);
      assert q[0] == PrintItems(st, items)[0] == Print(st, items[0])[0];
      assert p == "[" + q;
      ParseBracket(q);
      TornItems(st, items, q);
    }
  }

  /** Nothing, not even a closing bracket, follows an unfinished value. */
  lemma {:induction false} UnfinishedInside(key: string, q: string)
    requires Unfinished(Parse(q))
    ensures ParseItems(q).Bad? && ParseMember(key, q).Bad?
  {
  }

  lemma {:induction false} NextItemBad(q: string, v: Value, q': string)
    requires Parse(q) == Ok(v, "," + q')
    requires q' == "" || (!IsSpace(q'[0]) && ParseItems(q').Bad?)
    ensures ParseItems(q).Bad?
  {
    EmptyIsBad();
    SkipNothing("," + q');
    assert ("," + q')[1..] == q';
    if q' != "" { SkipNothing(q'); }
  }

  lemma {:induction false} NextMemberBad(key: string, q: string, v: Value, q': string)
    requires Parse(q) == Ok(v, "," + q')
    requires q' == "" || (!IsSpace(q'[0]) && ParseFields(q').Bad?)
    ensures ParseMember(key, q).Bad?
  {
    EmptyIsBad();
    SkipNothing("," + q');
    assert ("," + q')[1..] == q';
    if q' != "" { SkipNothing(q'); }
  }

  /** More than the value is there: it is not the last, and the piece goes on behind a comma. */
  lemma {:induction false} TornAfterValue(r: string, last: bool, close: string, rest: string)
    requires r != "" && |close| == 1 && Torn(r, if last then close else "," + rest)
    ensures !last && r == "," + r[1..] && Torn(r[1..], rest)
  {
    assert !last ==> r[0] == ("," + rest)[0] && ("," + rest)[1..] == rest;
  }

  lemma {:induction false} TornItems(st: Style, items: seq<Value>, q: string)
    requires items != [] && forall i :: 0 <= i < |items| ==> Plain(items[i])
    requires !st.spaced && Torn(q, PrintItems(st, items))
    ensures ParseItems(q).Bad?
    decreases items, 0
  {
    hide Parse, ParseItems, ParseMember, Print, Plain, Torn, IsSpace;
    var head := Print(st, items[0]);
    var more := if |items| == 1 then "" else PrintItems(st, items[1..]);
    var tail := if |items| == 1 then "]" else "," + more;
    assert PrintItems(st, items) == head + tail;
    hide PrintItems;
    TornSplit(q, head, tail);
    if Torn(q, head) {
      TornValue(st, items[0], q);
      UnfinishedInside("", q);
    } else {
      var r := q[|head|..];
      if r != "" { TornAfterValue(r, |items| == 1, "]", more); }
      ParsePrinted(st, items[0], r);
      if r == "" {
        UnfinishedInside("", q);
      } else {
        var q' := r[1..];
        if q' != "" {
          TornItemsStart(st, items[1..], q');
          TornItems(st, items[1..], q');
        }
        NextItemBad(q, items[0], q');
      }
    }
  }

  lemma {:induction false} TornItemsStart(st: Style, items: seq<Value>, q: string)
    requires items != [] && !st.spaced && Plain(items[0]) && q != "" && Torn(q, PrintItems(st, items))
    ensures !IsSpace(q[0])
  {
    hide Print, Plain;
    PrintStart(st, items[0]);
    assert q[0] == PrintItems(st, items)[0] == Print(st, items[0])[0];
  }

  lemma {:induction false} TornFieldsStart(st: Style, fields: seq<Field>, q: string)
    requires fields != [] && !st.spaced && q != "" && Torn(q, PrintFields(st, fields))
    ensures !IsSpace(q[0])
  {
    hide Print, PrintFields;
    PrintFieldsShape(st, fields, "");
    assert q[0] == PrintFields(st, fields)[0];
  }

  lemma {:induction false} TornObject(st: Style, fields: seq<Field>, p: string)
    requires PlainFields(fields)
    requires !st.spaced && p != "" && Torn(p, Print(st, Obj(fields)))
    ensures Parse(p).Bad?
    decreases fields, 1
  {
    hide Parse, ParseFields, Print, PrintFields, Torn, Plain, IsSpace;
    var q := p[1..];
    InsideObject(st, fields, p);
    if q == "" {
      assert p == "{";
      LoneBrace();
    } else {
      TornFieldsStart(st, fields, q);
      ParseBrace(q);
      TornFields(st, fields, q);
    }
  }

  lemma {:induction false} InsideObject(st: Style, fields: seq<Field>, p: string)
    requires !st.spaced && p != "" && Torn(p, Print(st, Obj(fields)))
    ensures p == "{" + p[1..]
    ensures p[1..] != "" ==> fields != [] && Torn(p[1..], PrintFields(st, fields)) && p[1] == '"'
  {
    assert p[0] == '{';
    if p[1..] != "" {
      assert fields != [];
      PrintFieldsShape(st, fields, "");
      hide PrintFields;
      assert Print(st, Obj(fields))[1..] == PrintFields(st, fields);
    }
  }

  lemma {:induction false} LoneBrace()
    ensures Parse("{").Bad?
  {
    EmptyIsBad();
    hide ParseFields;
    assert "{"[1..] == "";
  }

  lemma {:induction false} PrintFieldsAsMember(st: Style, fields: seq<Field>)
    requires fields != [] && !st.spaced
    ensures PrintFields(st, fields) ==
            "\"" + ((Escape(st.ascii, fields[0].key) + "\"") + (":" + PrintMemberValue(st, fields)))
  {
  }

  lemma {:induction false} TornFields(st: Style, fields: seq<Field>, q: string)
    requires fields != [] && forall i :: 0 <= i < |fields| ==> Plain(fields[i].value)
    requires !st.spaced && Torn(q, PrintFields(st, fields))
    ensures ParseFields(q).Bad?
    decreases fields, 0, 2
  {
    hide Parse, ParseMember, Print, PrintFields, Plain, PrintMemberValue;
    if q == "" {
      EmptyIsBad();
    } else {
      PrintFieldsShape(st, fields, "");
      var key := Escape(st.ascii, fields[0].key) + "\"";
      var member := PrintMemberValue(st, fields);
      PrintFieldsAsMember(st, fields);
      var q' := q[1..];
      assert q[0] == '"' && Torn(q', key + (":" + member));
      TornSplit(q', key, ":" + member);
      if Torn(q', key) {
        TornString(st.ascii, fields[0].key, q');
      } else {
        var colon := q'[|key|..];
        assert q' == Escape(st.ascii, fields[0].key) + "\"" + colon;
        ScanEscaped(st.ascii, fields[0].key, colon);
        if colon != "" {
          TornAfterKey(st, fields, q, colon);
        }
      }
    }
  }

  lemma {:induction false} TornAfterKey(st: Style, fields: seq<Field>, q: string, colon: string)
    requires fields != [] && forall i :: 0 <= i < |fields| ==> Plain(fields[i].value)
    requires !st.spaced && colon != "" && Torn(colon, ":" + PrintMemberValue(st, fields))
    requires q != "" && q[0] == '"' && ScanString(q[1..]) == Ok(fields[0].key, colon)
    ensures ParseFields(q).Bad?
    decreases fields, 0, 1
  {
    assert colon[0] == ':';
    var tail := colon[1..];
    assert Torn(tail, PrintMemberValue(st, fields));
    PrintStart(st, fields[0].value);
    if tail != "" {
      assert tail[0] == Print(st, fields[0].value)[0];
      SkipNothing(tail);
    }
    ParseAfterColon(q, fields[0].key, colon, tail);
    TornMember(st, fields, tail);
  }

  /** The printed fields from the first value on. */
  function PrintMemberValue(st: Style, fields: seq<Field>): string
    requires fields != []
  {
    Print(st, fields[0].value) + if |fields| == 1 then "}" else "," + PrintFields(st, fields[1..])
  }

  lemma {:induction false} TornMember(st: Style, fields: seq<Field>, q: string)
    requires fields != [] && forall i :: 0 <= i < |fields| ==> Plain(fields[i].value)
    requires !st.spaced && Torn(q, PrintMemberValue(st, fields))
    ensures ParseMember(fields[0].key, q).Bad?
    decreases fields, 0, 0
  {
    hide Parse, ParseFields, ParseMember, Print, PrintFields, Plain, Torn, IsSpace;
    var v := fields[0].value;
    var head := Print(st, v);
    var more := if |fields| == 1 then "" else PrintFields(st, fields[1..]);
    var tail := if |fields| == 1 then "}" else "," + more;
    TornSplit(q, head, tail);
    if Torn(q, head) {
      TornValue(st, v, q);
      UnfinishedInside(fields[0].key, q);
    } else {
      var r := q[|head|..];
      if r != "" { TornAfterValue(r, |fields| == 1, "}", more); }
      ParsePrinted(st, v, r);
      if r == "" {
        UnfinishedInside(fields[0].key, q);
      } else {
        var q' := r[1..];
        if q' != "" {
          TornFieldsStart(st, fields[1..], q');
          TornFields(st, fields[1..], q');
        }
        NextMemberBad(fields[0].key, q, v, q');
      }
    }
  }

  /** No proper prefix of a compact printed object is a JSON document. */
  lemma {:induction false} TornObjectIsInvalid(st: Style, fields: seq<Field>, p: string)
    requires PlainFields(fields) && !st.spaced
    requires Torn(p, Print(st, Obj(fields)))
    ensures Loads(p) == None
  {
    TornValue(st, Obj(fields), p);
    assert p != "" ==> p[0] == '{';
  }

  // ---------- text that goes on ----------

  /** A character no number contains. */
  predicate Break(c: char) {
    !(IsDigit(c) || c == '.' || c == 'e' || c == 'E' || c == '+' || c == '-')
  }

  predicate Breaks(t: string) { t != "" && Break(t[0]) }

  function Extend<T>(r: Parsed<T>, t: string): Parsed<T> {
    match r case Bad => Bad case Ok(v, rest) => Ok(v, rest + t)
  }

  lemma {:induction false} EmptyIsBad()
    ensures Parse("").Bad? && ParseItems("").Bad? && ParseFields("").Bad?
    ensures forall key :: ParseMember(key, "").Bad?
  {
  }

  lemma {:induction false} AppendTail(s: string, t: string, k: nat)
    requires k <= |s|
    ensures (s + t)[k..] == s[k..] + t
  {
  }

  lemma {:induction false} SkipAppend(s: string, t: string)
    requires SkipSpace(s) != ""
    ensures SkipSpace(s + t) == SkipSpace(s) + t
  {
    if IsSpace(s[0]) {
      AppendTail(s, t, 1);
      SkipAppend(s[1..], t);
    }
  }

  lemma {:induction false} DigitsAppend(s: string, t: string)
    requires Breaks(t)
    ensures Digits(s + t) == Digits(s)
  {
    if s == "" {
      assert s + t == t;
    } else if IsDigit(s[0]) {
      AppendTail(s, t, 1);
      DigitsAppend(s[1..], t);
    }
  }

  lemma {:induction false} FractionAppend(s: string, t: string)
    requires Breaks(t)
    ensures FractionLength(s + t) == FractionLength(s)
  {
    if s == "" {
      assert s + t == t;
    } else {
      AppendTail(s, t, 1);
      DigitsAppend(s[1..], t);
    }
  }

  lemma {:induction false} ExponentAppend(s: string, t: string)
    requires Breaks(t)
    ensures ExponentLength(s + t) == ExponentLength(s)
  {
    if s == "" {
      assert s + t == t;
    } else {
      AppendTail(s, t, 1);
      DigitsAppend(s[1..], t);
      if |s| >= 2 {
        AppendTail(s, t, 2);
        DigitsAppend(s[2..], t);
      } else {
        assert (s + t)[1] == t[0];
      }
    }
  }

  /** How much of the input `ScanUnsigned` takes as the integer part, and as the whole number. */
  function IntegerLength(s: string): (n: nat)
    ensures n <= |s|
  {
    if s != "" && s[0] == '0' then 1 else Digits(s)
  }

  function NumberLength(s: string): (n: nat)
    ensures IntegerLength(s) <= n <= |s|
  {
    var n := IntegerLength(s);
    var m := n + FractionLength(s[n..]);
    m + ExponentLength(s[m..])
  }

  lemma {:induction false} IntegerAppend(s: string, t: string)
    requires Breaks(t)
    ensures IntegerLength(s + t) == IntegerLength(s)
  {
    DigitsAppend(s, t);
    if s == "" { assert s + t == t; }
  }

  lemma {:induction false} NumberLengthAppend(s: string, t: string)
    requires Breaks(t)
    ensures IntegerLength(s + t) == IntegerLength(s) && NumberLength(s + t) == NumberLength(s)
  {
    hide IntegerLength, FractionLength, ExponentLength;
    IntegerAppend(s, t);
    var n := IntegerLength(s);
    AppendTail(s, t, n);
    FractionAppend(s[n..], t);
    var m := n + FractionLength(s[n..]);
    AppendTail(s, t, m);
    ExponentAppend(s[m..], t);
  }

  lemma {:induction false} ScanUnsignedByLength(s: string)
    requires IntegerLength(s) > 0
    ensures ScanUnsigned(s).Ok? && ScanUnsigned(s).rest == s[NumberLength(s)..]
    ensures NumberLength(s) > IntegerLength(s) ==> ScanUnsigned(s).value == Float(s[..NumberLength(s)])
    ensures NumberLength(s) == IntegerLength(s) ==>
      (DigitsAreDigits(s); ScanUnsigned(s).value == Num(DigitsValue(s[..IntegerLength(s)])))
  {
    hide Digits, FractionLength, ExponentLength, DigitsValue;
    DigitsAreDigits(s);
  }

  lemma {:induction false} HeadStays(s: string, t: string, k: nat)
    requires k <= |s|
    ensures (s + t)[..k] == s[..k]
  {
  }

  lemma {:induction false} HasInteger(s: string)
    requires ScanUnsigned(s).Ok?
    ensures IntegerLength(s) > 0
  {
    hide Digits, FractionLength, ExponentLength;
  }

  lemma {:induction false} UnsignedAppend(s: string, t: string)
    requires Breaks(t) && ScanUnsigned(s).Ok?
    ensures ScanUnsigned(s + t) == Extend(ScanUnsigned(s), t)
  {
    HasInteger(s);
    hide ScanUnsigned, IntegerLength, NumberLength, DigitsValue;
    NumberLengthAppend(s, t);
    AppendTail(s, t, NumberLength(s));
    HeadStays(s, t, NumberLength(s));
    HeadStays(s, t, IntegerLength(s));
    ScanUnsignedByLength(s);
    ScanUnsignedByLength(s + t);
    assert ScanUnsigned(s + t).value == ScanUnsigned(s).value;
  }

  lemma {:induction false} NumberAppend(s: string, t: string)
    requires Breaks(t) && ScanNumber(s).Ok?
    ensures ScanNumber(s + t) == Extend(ScanNumber(s), t)
  {
    UnsignedStartsWithDigit(s);
    hide ScanUnsigned;
    assert (s + t)[0] == s[0];
    if s[0] == '-' {
      AppendTail(s, t, 1);
      UnsignedAppend(s[1..], t);
      var rest := ScanNumber(s).rest;
      assert (s + t)[..|s| - |rest|] == s[..|s| - |rest|];
    } else {
      UnsignedAppend(s, t);
    }
  }

  lemma {:induction false} CharAppend(s: string, t: string)
    requires ScanChar(s).Ok?
    ensures ScanChar(s + t) == Extend(ScanChar(s), t)
  {
    AppendTail(s, t, 1);
    if s[0] == '\\' {
      AppendTail(s[1..], t, 1);
      if s[1] == 'u' {
        var u := s[1..][1..];
        AppendTail(u, t, 4);
        if |u| >= 6 {
          AppendTail(u, t, 6);
          if |u| >= 10 { AppendTail(u, t, 10); }
        }
      }
    }
  }

  lemma {:induction false} StringAppend(s: string, t: string)
    requires ScanString(s).Ok?
    ensures ScanString(s + t) == Extend(ScanString(s), t)
    decreases |s|
  {
    if s[0] == '"' {
      AppendTail(s, t, 1);
    } else {
      CharAppend(s, t);
      StringAppend(ScanChar(s).rest, t);
    }
  }

  lemma {:induction false} WordAppend(s: string, t: string, word: string, v: Value)
    requires word != "" && Word(s, word, v).Ok?
    ensures Word(s + t, word, v) == Extend(Word(s, word, v), t)
  {
    assert (s + t)[..|word|] == s[..|word|];
    AppendTail(s, t, |word|);
  }

  /** What was read stays read when the text goes on with a character no number contains. */
  lemma {:induction false} ParseAppend(s: string, t: string)
    requires Breaks(t) && Parse(s).Ok?
    ensures Parse(s + t) == Extend(Parse(s), t)
    decreases |s|, 1
  {
    var c := s[0];
    assert (s + t)[0] == c;
    AppendTail(s, t, 1);
    if c == '"' { StringAppend(s[1..], t); }
    else if c == '[' { ArrayAppend(s, t); }
    else if c == '{' { ObjectAppend(s, t); }
    else if c == 'n' { WordAppend(s, t, "null", Null); }
    else if c == 't' { WordAppend(s, t, "true", Bool(true)); }
    else if c == 'f' { WordAppend(s, t, "false", Bool(false)); }
    else if c == 'N' { WordAppend(s, t, "NaN", Float("NaN")); }
    else if c == 'I' { WordAppend(s, t, "Infinity", Float("Infinity")); }
    else { MinusAppend(s, t); }
  }

  lemma {:induction false} UnsignedStartsWithDigit(s: string)
    ensures ScanUnsigned(s).Ok? ==> s != "" && IsDigit(s[0])
  {
  }

  lemma {:induction false} ParseOther(s: string)
    requires s != "" && s[0] !in "\"[{ntfNI" && !("-Infinity" <= s)
    ensures Parse(s) == ScanNumber(s)
  {
    hide ScanNumber;
  }

  lemma {:induction false} NoInfinity(s: string, t: string)
    requires ScanNumber(s).Ok?
    ensures s != "" && !("-Infinity" <= s + t)
  {
    hide ScanUnsigned;
    assert s != "" by { assert ScanUnsigned("").Bad? by { UnsignedStartsWithDigit(""); } }
    if s[0] == '-' {
      UnsignedStartsWithDigit(s[1..]);
      assert (s + t)[1] == s[1] != "-Infinity"[1];
    } else {
      assert (s + t)[0] != "-Infinity"[0];
    }
  }

  lemma {:induction false} MinusAppend(s: string, t: string)
    requires Breaks(t) && s != "" && s[0] !in "\"[{ntfNI" && Parse(s).Ok?
    ensures Parse(s + t) == Extend(Parse(s), t)
  {
    assert (s + t)[0] == s[0];
    if "-Infinity" <= s {
      assert (s + t)[..9] == s[..9];
      AppendTail(s, t, 9);
    } else {
      hide ScanNumber, Parse;
      ParseOther(s);
      NoInfinity(s, t);
      ParseOther(s + t);
      NumberAppend(s, t);
    }
  }

  lemma {:induction false} ArrayAppend(s: string, t: string)
    requires Breaks(t) && s != "" && s[0] == '[' && Parse(s).Ok?
    ensures Parse(s + t) == Extend(Parse(s), t)
    decreases |s|, 0
  {
    AppendTail(s, t, 1);
    var body := SkipSpace(s[1..]);
    EmptyIsBad();
    SkipAppend(s[1..], t);
    AppendTail(body, t, 1);
    if body[0] != ']' { ItemsAppend(body, t); }
  }

  lemma {:induction false} ItemsAppend(s: string, t: string)
    requires Breaks(t) && ParseItems(s).Ok?
    ensures ParseItems(s + t) == Extend(ParseItems(s), t)
    decreases |s|, 2
  {
    ParseAppend(s, t);
    var next := SkipSpace(Parse(s).rest);
    SkipAppend(Parse(s).rest, t);
    AppendTail(next, t, 1);
    if next[0] == ',' {
      var more := SkipSpace(next[1..]);
      EmptyIsBad();
      SkipAppend(next[1..], t);
      ItemsAppend(more, t);
    }
  }

  lemma {:induction false} ObjectAppend(s: string, t: string)
    requires Breaks(t) && s != "" && s[0] == '{' && Parse(s).Ok?
    ensures Parse(s + t) == Extend(Parse(s), t)
    decreases |s|, 0
  {
    AppendTail(s, t, 1);
    var body := SkipSpace(s[1..]);
    EmptyIsBad();
    SkipAppend(s[1..], t);
    AppendTail(body, t, 1);
    if body[0] != '}' { FieldsAppend(body, t); }
  }

  lemma {:induction false} FieldsAppend(s: string, t: string)
    requires Breaks(t) && ParseFields(s).Ok?
    ensures ParseFields(s + t) == Extend(ParseFields(s), t)
    decreases |s|, 2
  {
    AppendTail(s, t, 1);
    StringAppend(s[1..], t);
    var key, afterKey := ScanString(s[1..]).value, ScanString(s[1..]).rest;
    var colon := SkipSpace(afterKey);
    SkipAppend(afterKey, t);
    AppendTail(colon, t, 1);
    var tail := SkipSpace(colon[1..]);
    EmptyIsBad();
    SkipAppend(colon[1..], t);
    MemberAppend(key, tail, t);
  }

  lemma {:induction false} MemberAppend(key: string, s: string, t: string)
    requires Breaks(t) && ParseMember(key, s).Ok?
    ensures ParseMember(key, s + t) == Extend(ParseMember(key, s), t)
    decreases |s|, 2
  {
    ParseAppend(s, t);
    var next := SkipSpace(Parse(s).rest);
    SkipAppend(Parse(s).rest, t);
    AppendTail(next, t, 1);
    if next[0] == ',' {
      var more := SkipSpace(next[1..]);
      EmptyIsBad();
      SkipAppend(next[1..], t);
      FieldsAppend(more, t);
    }
  }

  lemma {:induction false} SkipAllAppend(s: string, t: string)
    requires SkipSpace(s) == ""
    ensures SkipSpace(s + t) == SkipSpace(t)
  {
    if s == "" {
      assert s + t == t;
    } else {
      AppendTail(s, t, 1);
      SkipAllAppend(s[1..], t);
    }
  }

  /** A line end after a document changes nothing; an object after a document is an error. */
  lemma {:induction false} LoadsAppend(s: string, t: string)
    requires Loads(s).Some? && Breaks(t)
    ensures Loads(s + t) == if SkipSpace(t) == "" then Loads(s) else None
  {
    var body := SkipSpace(s);
    EmptyIsBad();
    SkipAppend(s, t);
    ParseAppend(body, t);
    SkipAllAppend(Parse(body).rest, t);
  }
}
