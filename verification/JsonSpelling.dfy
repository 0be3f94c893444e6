/** How JSON text spells strings, written without the scanner: section 7 of RFC 8259. The scanner
  reads exactly these spellings, and the encoder picks the shortest of them. */
module JsonSpelling {
  import opened Sequences
  import opened Json
  import opened JsonRoundTrip

  // ---------- the spellings ----------

  /** The two-character escapes: the letter after the backslash, and what it stands for. */
  const SHORT := [('"', '"'), ('\\', '\\'), ('/', '/'), ('b', '\U{8}'), ('f', '\U{C}'), ('n', '\U{A}'), ('r', '\U{D}'),
    ('t', '\U{9}')]

  const LOWER_DIGITS := "0123456789abcdef"
  const UPPER_DIGITS := "0123456789ABCDEF"

  /** The hexadecimal digit `h`, in either case, stands for `d`. */
  predicate HexStandsFor(h: char, d: int) {
    0 <= d < 16 && (h == LOWER_DIGITS[d] || h == UPPER_DIGITS[d])
  }

  /** A backslash, a `u` and the four digits of `n`. */
  predicate UnitEscape(t: string, n: int) {
    && |t| == 6 && t[0] == '\\' && t[1] == 'u' && 0 <= n < 0x10000
    && HexStandsFor(t[2], n / 0x1000) && HexStandsFor(t[3], n / 0x100 % 16)
    && HexStandsFor(t[4], n / 16 % 16) && HexStandsFor(t[5], n % 16)
  }

  predicate ShortEscape(t: string, c: char) {
    |t| == 2 && t[0] == '\\' && exists i :: 0 <= i < |SHORT| && SHORT[i] == (t[1], c)
  }

  /** A character outside the basic plane, as two units. */
  predicate PairEscape(t: string, c: char) {
    && |t| == 12 && c as int >= 0x10000
    && UnitEscape(t[..6], 0xD800 + (c as int - 0x10000) / 0x400)
    && UnitEscape(t[6..], 0xDC00 + (c as int - 0x10000) % 0x400)
  }

  predicate Itself(t: string, c: char) { t == [c] && c >= ' ' && c != '"' && c != '\\' }

  predicate SpellsChar(t: string, c: char) {
    Itself(t, c) || ShortEscape(t, c) || UnitEscape(t, c as int) || PairEscape(t, c)
  }

  /** The text between the quotes spells the string. */
  ghost predicate Spells(text: string, s: string)
    decreases |s|
  {
    if s == "" then text == ""
    else exists k: nat :: SpellsFrom(text, s, k)
  }

  /** The first `k` characters of the text spell the first of the string, and the rest the rest. */
  ghost predicate SpellsFrom(text: string, s: string, k: nat)
    requires s != ""
    decreases |s|, 0
  {
    k <= |text| && SpellsChar(text[..k], s[0]) && Spells(text[k..], s[1..])
  }

  // ---------- one character ----------

  lemma {:induction false} HexStands(h: char, d: int)
    requires 0 <= d < 16
    ensures HexStandsFor(h, d) <==> HexValue(h) == d
  {
    assert LOWER_DIGITS[d] == HexDigit(d);
    assert UPPER_DIGITS[d] == if d < 10 then (d + '0' as int) as char else (d - 10 + 'A' as int) as char;
  }

  lemma {:induction false} HexParts(a: int, b: int, c: int, d: int)
    requires 0 <= a < 16 && 0 <= b < 16 && 0 <= c < 16 && 0 <= d < 16
    ensures var n := a * 0x1000 + b * 0x100 + c * 16 + d;
            n / 0x1000 == a && n / 0x100 % 16 == b && n / 16 % 16 == c && n % 16 == d && 0 <= n < 0x10000
  {
    var n := a * 0x1000 + b * 0x100 + c * 16 + d;
    assert n / 16 == a * 0x100 + b * 16 + c;
    assert n / 16 / 16 == a * 16 + b && n / 0x100 == n / 16 / 16;
    assert n / 0x100 / 16 == a && n / 0x1000 == n / 0x100 / 16;
  }

  /** Four digits are read as `n` exactly when they are those of `n`. */
  lemma {:induction false} UnitIff(t: string, n: int)
    requires |t| == 6 && t[0] == '\\' && t[1] == 'u'
    ensures UnitEscape(t, n) <==> ScanHex4(t[2..]) == Some(n)
  {
    hide HexStandsFor, HexValue;
    var h := t[2..];
    assert h[0] == t[2] && h[1] == t[3] && h[2] == t[4] && h[3] == t[5];
    var a, b, c, d := HexValue(h[0]), HexValue(h[1]), HexValue(h[2]), HexValue(h[3]);
    if 0 <= n < 0x10000 {
      HexSum(n);
      HexStands(h[0], n / 0x1000);
      HexStands(h[1], n / 0x100 % 16);
      HexStands(h[2], n / 16 % 16);
      HexStands(h[3], n % 16);
    }
    if a >= 0 && b >= 0 && c >= 0 && d >= 0 { HexParts(a, b, c, d); }
  }

  lemma {:induction false} ScanHex4Local(s: string, t: string)
    requires |s| >= 4
    ensures ScanHex4(s + t) == ScanHex4(s) && ScanHex4(s) == ScanHex4(s[..4])
  {
  }

  lemma {:induction false} ShortIff(t: string, c: char, rest: string)
    requires |t| == 2 && t[0] == '\\' && t[1] != 'u'
    ensures ShortEscape(t, c) <==> ScanChar(t + rest) == Ok(c, rest)
    ensures ScanChar(t + rest).Ok? ==> ScanChar(t + rest).rest == rest
  {
    assert (t + rest)[1..][1..] == rest;
    assert SHORT[0] == ('"', '"') && SHORT[1] == ('\\', '\\') && SHORT[2] == ('/', '/') && SHORT[3] == ('b', BACKSPACE);
    assert SHORT[4] == ('f', FORM_FEED) && SHORT[5] == ('n', '\n') && SHORT[6] == ('r', '\r')
      && SHORT[7] == ('t', '\t');
    hide ScanUnicode;
  }

  /** A spelling of a character is read as that character, and as nothing more. */
  lemma {:induction false} ScanSpelled(t: string, c: char, rest: string)
    requires SpellsChar(t, c)
    ensures t != "" && t[0] != '"' && ScanChar(t + rest) == Ok(c, rest)
  {
    hide ScanHex4, UnitEscape, ShortEscape;
    if Itself(t, c) {
      assert (t + rest)[1..] == rest;
    } else if ShortEscape(t, c) {
      ShortParts(t, c);
      hide ScanChar;
      ShortIff(t, c, rest);
    } else if UnitEscape(t, c as int) {
      UnitParts(t, c as int);
      var u := (t + rest)[1..][1..];
      assert u == t[2..] + rest && u[4..] == rest;
      ScanHex4Local(t[2..], rest);
      UnitIff(t, c as int);
    } else {
      var hi, lo := 0xD800 + (c as int - 0x10000) / 0x400, 0xDC00 + (c as int - 0x10000) % 0x400;
      UnitParts(t[..6], hi);
      UnitParts(t[6..], lo);
      PairCut(t, rest);
      UnitIff(t[..6], hi);
      UnitIff(t[6..], lo);
    }
  }

  lemma {:induction false} ShortParts(t: string, c: char)
    requires ShortEscape(t, c)
    ensures |t| == 2 && t[0] == '\\' && t[1] != 'u'
  {
    assert forall i :: 0 <= i < |SHORT| ==> SHORT[i].0 != 'u';
  }

  lemma {:induction false} UnitParts(t: string, n: int)
    requires UnitEscape(t, n)
    ensures |t| == 6 && t[0] == '\\' && t[1] == 'u' && 0 <= n < 0x10000
  {
  }

  /** How two escapes lie behind their first backslash and `u`. */
  lemma {:induction false} PairCut(t: string, rest: string)
    requires |t| == 12
    ensures var u := (t + rest)[1..][1..];
            && |u| >= 10 && u[4] == t[6] && u[5] == t[7] && u[10..] == rest
            && ScanHex4(u) == ScanHex4(t[..6][2..]) && ScanHex4(u[6..]) == ScanHex4(t[6..][2..])
  {
    var u := (t + rest)[1..][1..];
    assert u == t[2..] + rest && u[10..] == rest;
    assert u[..4] == t[..6][2..] && u[6..][..4] == t[6..][2..];
    ScanHex4Local(u, "");
    ScanHex4Local(u[6..], "");
    hide ScanHex4;
    assert t[..6][2..][..4] == t[..6][2..] && t[6..][2..][..4] == t[6..][2..];
  }

  /** What was read of `s`, when `rest` is left. */
  function Eaten(s: string, rest: string): string
    requires |rest| <= |s|
  {
    s[..|s| - |rest|]
  }

  /** `rest` is what is left of `s`. */
  predicate Leaves(s: string, rest: string) { |rest| <= |s| && s[|s| - |rest|..] == rest }

  lemma {:induction false} LeavesAll(s: string, rest: string)
    requires Leaves(s, rest)
    ensures s == Eaten(s, rest) + rest
  {
  }

  /** Whatever is read as a character spells it. */
  lemma {:induction false} SpelledScan(s: string)
    requires ScanChar(s).Ok?
    ensures var r := ScanChar(s); Leaves(s, r.rest) && SpellsChar(Eaten(s, r.rest), r.value)
  {
    hide UnitEscape, ShortEscape, ScanHex4;
    var r := ScanChar(s);
    if s[0] != '\\' {
      assert Eaten(s, r.rest) == [s[0]];
    } else if s[1] != 'u' {
      var t, rest := s[..2], s[2..];
      assert s == t + rest;
      ShortIff(t, r.value, rest);
      assert Eaten(s, rest) == t;
    } else {
      SpelledUnicode(s);
    }
  }

  lemma {:induction false} SpelledUnicode(s: string)
    requires ScanChar(s).Ok? && s[0] == '\\' && s[1] == 'u'
    ensures var r := ScanChar(s); Leaves(s, r.rest) && SpellsChar(Eaten(s, r.rest), r.value)
  {
    hide UnitEscape, ShortEscape, ScanHex4;
    var r := ScanChar(s);
    var u := s[1..][1..];
    assert u == s[2..];
    ScanHex4Some(u);
    var n := ScanHex4(u).value;
    ScanHex4Local(u, "");
    assert s[..6][2..] == u[..4];
    UnitIff(s[..6], n);
    if 0xD800 <= n < 0xDC00 {
      ScanHex4Some(u[6..]);
      var m := ScanHex4(u[6..]).value;
      ScanHex4Local(u[6..], "");
      assert s[6..12][2..] == u[6..][..4];
      UnitIff(s[6..12], m);
      assert r.rest == s[12..] && Eaten(s, r.rest) == s[..12];
      assert s[..12][..6] == s[..6] && s[..12][6..] == s[6..12];
      PairValue(n, m);
    } else {
      assert r.rest == s[6..] && Eaten(s, r.rest) == s[..6];
    }
  }

  lemma {:induction false} ScanHex4Some(u: string)
    requires ScanHex4(u).Some?
    ensures |u| >= 4
  {
  }

  lemma {:induction false} PairValue(n: int, m: int)
    requires 0xD800 <= n < 0xDC00 && 0xDC00 <= m < 0xE000
    ensures var c := 0x10000 + (n - 0xD800) * 0x400 + (m - 0xDC00);
            0x10000 <= c < 0x110000 && 0xD800 + (c - 0x10000) / 0x400 == n && 0xDC00 + (c - 0x10000) % 0x400 == m
  {
  }

  // ---------- strings ----------

  /** A spelling and its closing quote are read as the string. */
  lemma {:induction false} ScanSpelledString(text: string, s: string, rest: string)
    requires Spells(text, s)
    ensures ScanString(text + ("\"" + rest)) == Ok(s, rest)
    decreases |s|
  {
    hide ScanChar, SpellsChar;
    if s == "" {
      assert text + ("\"" + rest) == "\"" + rest && ("\"" + rest)[1..] == rest;
    } else {
      var k: nat :| SpellsFrom(text, s, k);
      var t, more := text[..k], text[k..] + ("\"" + rest);
      ScanSpelled(t, s[0], more);
      ScanSpelledString(text[k..], s[1..], rest);
      assert text + ("\"" + rest) == t + more;
      assert (t + more)[0] == t[0];
      ScanStringStep(t + more, s[0], more, s[1..], rest);
      assert [s[0]] + s[1..] == s;
    }
  }

  /** Whatever is read as a string is a spelling and a closing quote. */
  lemma {:induction false} SpelledScanString(x: string)
    requires ScanString(x).Ok?
    ensures var r := ScanString(x);
            && Leaves(x, r.rest) && Eaten(x, r.rest) != ""
            && var text := x[..|x| - |r.rest| - 1];
            x == text + ("\"" + r.rest) && Spells(text, r.value)
    decreases |x|
  {
    hide ScanChar, SpellsChar;
    var r := ScanString(x);
    if x != "" && x[0] == '"' {
      assert x == "" + ("\"" + x[1..]);
    } else {
      SpelledScan(x);
      var first := ScanChar(x);
      SpelledScanString(first.rest);
      LeavesAll(x, first.rest);
      hide ScanString, Leaves;
      var tail := first.rest[..|first.rest| - |r.rest| - 1];
      SpellsMore(x, Eaten(x, first.rest), first.value, tail, ScanString(first.rest).value, r.rest);
      assert r.value == [first.value] + ScanString(first.rest).value;
    }
  }

  /** One character more in front. */
  lemma {:induction false} SpellsMore(x: string, head: string, c: char, tail: string, s: string, rest: string)
    requires x == head + (tail + ("\"" + rest)) && SpellsChar(head, c) && Spells(tail, s)
    ensures Leaves(x, rest) && Eaten(x, rest) != ""
    ensures var text := x[..|x| - |rest| - 1]; x == text + ("\"" + rest) && Spells(text, [c] + s)
  {
    hide SpellsChar;
    var text := head + tail;
    assert x == text + ("\"" + rest);
    assert x[..|text|] == text && text[..|head|] == head && text[|head|..] == tail;
    assert ([c] + s)[1..] == s;
    assert SpellsFrom(text, [c] + s, |head|);
  }

  /** A string literal is one exactly when its inside spells the string. */
  lemma {:induction false} LiteralIff(text: string, s: string)
    ensures Loads("\"" + text + "\"") == Some(Str(s)) <==> Spells(text, s)
  {
    hide Spells, ScanString;
    var literal := "\"" + text + "\"";
    assert literal[1..] == text + ("\"" + "") == text + "\"";
    LoadsLiteral(literal);
    if Spells(text, s) {
      ScanSpelledString(text, s, "");
    }
    if Loads(literal) == Some(Str(s)) {
      SpelledScanString(literal[1..]);
      var rest := ScanString(literal[1..]).rest;
      QuotesEnd(text, literal[1..][..|literal[1..]| - |rest| - 1], rest);
    }
  }

  lemma {:induction false} LoadsLiteral(literal: string)
    requires literal != "" && literal[0] == '"'
    ensures Loads(literal) ==
            match ScanString(literal[1..])
            case Bad => None
            case Ok(s, rest) => if SkipSpace(rest) == "" then Some(Str(s)) else None
  {
    hide ScanString, ParseItems, ParseFields, Word, ScanNumber;
  }

  /** Behind the last quote there is nothing that could be skipped. */
  lemma {:induction false} QuotesEnd(text: string, inside: string, rest: string)
    requires text + "\"" == inside + ("\"" + rest) && SkipSpace(rest) == ""
    ensures inside == text && rest == ""
  {
    LastOf(text, "\"");
    LastOf(inside + "\"", rest);
    Associative(inside, "\"", rest);
    if rest != "" {
      SkipsAll(rest);
    } else {
      assert (text + "\"")[..|text|] == text && (inside + "\"")[..|inside|] == inside;
    }
  }

  lemma {:induction false} LastOf(s: string, t: string)
    ensures t != "" ==> (s + t)[|s + t| - 1] == t[|t| - 1]
  {
  }

  lemma {:induction false} SkipsAll(s: string)
    requires SkipSpace(s) == ""
    ensures forall i :: 0 <= i < |s| ==> IsSpace(s[i])
  {
    if s != "" {
      SkipsAll(s[1..]);
      assert forall i :: 0 < i < |s| ==> s[i] == s[1..][i - 1];
    }
  }

  // ---------- what the encoder writes ----------

  predicate Printable(t: string) { forall i :: 0 <= i < |t| ==> ' ' <= t[i] <= '~' }

  /** No hexadecimal digit of the spelling is a capital; other capitals stand for themselves. */
  predicate LowerCase(t: string) { |t| >= 6 ==> forall i :: 0 <= i < |t| ==> !('A' <= t[i] <= 'F') }

  lemma {:induction false} HexIsLower(h: char, d: int)
    requires HexStandsFor(h, d) && !('A' <= h <= 'F')
    ensures h == HexDigit(d)
  {
    assert LOWER_DIGITS[d] == HexDigit(d);
  }

  lemma {:induction false} UnitIsLower(t: string, n: int)
    requires UnitEscape(t, n) && LowerCase(t)
    ensures t == UnicodeEscape(n)
  {
    hide HexStandsFor;
    HexIsLower(t[2], n / 0x1000);
    HexIsLower(t[3], n / 0x100 % 16);
    HexIsLower(t[4], n / 16 % 16);
    HexIsLower(t[5], n % 16);
    var u := UnicodeEscape(n);
    assert u[0] == '\\' && u[1] == 'u';
    assert u[2] == t[2] && u[3] == t[3] && u[4] == t[4] && u[5] == t[5];
  }

  /** The encoder's escape is a spelling, in lower case, and printable ASCII when it has to be. */
  lemma {:induction false} EscapeSpells(ascii: bool, c: char)
    ensures SpellsChar(EscapeChar(ascii, c), c) && LowerCase(EscapeChar(ascii, c))
    ensures ascii ==> Printable(EscapeChar(ascii, c))
  {
    hide UnitEscape, UnicodeEscape;
    assert SHORT[0] == ('"', '"') && SHORT[1] == ('\\', '\\') && SHORT[3] == ('b', BACKSPACE);
    assert SHORT[4] == ('f', FORM_FEED) && SHORT[5] == ('n', '\n') && SHORT[6] == ('r', '\r')
      && SHORT[7] == ('t', '\t');
    if c as int < 0x10000 {
      UnicodeSpells(c as int);
    } else {
      PairSpells(c);
    }
  }

  lemma {:induction false} PairSpells(c: char)
    requires c as int >= 0x10000
    ensures var n := c as int - 0x10000;
            var both := UnicodeEscape(0xD800 + n / 0x400) + UnicodeEscape(0xDC00 + n % 0x400);
            PairEscape(both, c) && LowerCase(both) && Printable(both)
  {
    hide UnitEscape, UnicodeEscape;
    var n := c as int - 0x10000;
    var hi, lo := UnicodeEscape(0xD800 + n / 0x400), UnicodeEscape(0xDC00 + n % 0x400);
    UnicodeSpells(0xD800 + n / 0x400);
    UnicodeSpells(0xDC00 + n % 0x400);
    assert (hi + lo)[..6] == hi && (hi + lo)[6..] == lo;
  }

  lemma {:induction false} UnicodeSpells(n: int)
    requires 0 <= n < 0x10000
    ensures var t := UnicodeEscape(n);
            UnitEscape(t, n) && Printable(t) && |t| == 6 && forall i :: 0 <= i < |t| ==> !('A' <= t[i] <= 'F')
  {
    DigitStands(n / 0x1000);
    DigitStands(n / 0x100 % 16);
    DigitStands(n / 16 % 16);
    DigitStands(n % 16);
    hide HexDigit, HexStandsFor;
    var t := UnicodeEscape(n);
    assert t[0] == '\\' && t[1] == 'u' && t[2] == HexDigit(n / 0x1000) && t[3] == HexDigit(n / 0x100 % 16);
    assert t[4] == HexDigit(n / 16 % 16) && t[5] == HexDigit(n % 16);
  }

  lemma {:induction false} DigitStands(d: int)
    requires 0 <= d < 16
    ensures var h := HexDigit(d); HexStandsFor(h, d) && ' ' <= h <= '~' && !('A' <= h <= 'F')
  {
    assert LOWER_DIGITS[d] == HexDigit(d);
  }

  /** Of all spellings in lower case - in printable ASCII, where that is asked for - it is the one
    and only shortest. */
  lemma {:induction false} EscapeIsShortest(ascii: bool, c: char, t: string)
    requires SpellsChar(t, c) && LowerCase(t) && (ascii ==> Printable(t))
    ensures |EscapeChar(ascii, c)| <= |t|
    ensures |EscapeChar(ascii, c)| == |t| ==> EscapeChar(ascii, c) == t
  {
    hide UnitEscape, Hex4;
    if ShortEscape(t, c) { ShortIsOwn(ascii, c, t); }
    if UnitEscape(t, c as int) {
      UnitParts(t, c as int);
      UnitIsLower(t, c as int);
    }
    if PairEscape(t, c) {
      var hi, lo := 0xD800 + (c as int - 0x10000) / 0x400, 0xDC00 + (c as int - 0x10000) % 0x400;
      assert forall i :: 0 <= i < 6 ==> t[..6][i] == t[i] && t[6..][i] == t[i + 6];
      UnitIsLower(t[..6], hi);
      UnitIsLower(t[6..], lo);
      assert t == t[..6] + t[6..];
    }
  }

  lemma {:induction false} ShortIsOwn(ascii: bool, c: char, t: string)
    requires ShortEscape(t, c)
    ensures EscapeChar(ascii, c) == (if c == '/' then "/" else t) && |t| == 2
  {
    assert SHORT[0] == ('"', '"') && SHORT[1] == ('\\', '\\') && SHORT[2] == ('/', '/') && SHORT[3] == ('b', BACKSPACE);
    assert SHORT[4] == ('f', FORM_FEED) && SHORT[5] == ('n', '\n') && SHORT[6] == ('r', '\r')
      && SHORT[7] == ('t', '\t');
    assert t == [t[0], t[1]];
  }
}
