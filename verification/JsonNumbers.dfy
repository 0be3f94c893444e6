/** How JSON text writes numbers, without the scanner: section 6 of RFC 8259, and Python's `NaN`,
  `Infinity` and `-Infinity`. */
module JsonNumbers {
  import opened Sequences
  import opened Json
  import opened JsonRoundTrip
  import opened JsonPrefix
  import opened JsonSpelling

  // ---------- numbers ----------

  /** At least one digit, and nothing else. */
  ghost predicate DigitText(d: string) { d != "" && AllDigits(d) }

  /** An integer part: no superfluous zero in front. */
  ghost predicate WholeText(d: string) { DigitText(d) && (d[0] == '0' ==> |d| == 1) }

  ghost predicate FractionText(f: string) { f == "" || (f[0] == '.' && DigitText(f[1..])) }

  ghost predicate ExponentText(e: string) {
    e == "" || ((e[0] == 'e' || e[0] == 'E')
                && (DigitText(e[1..]) || (|e| >= 2 && (e[1] == '+' || e[1] == '-') && DigitText(e[2..]))))
  }

  /** A number with a fraction, an exponent, or both. */
  ghost predicate FloatParts(t: string, sign: string, whole: string, fraction: string, exponent: string) {
    && t == sign + (whole + (fraction + exponent)) && (sign == "" || sign == "-")
    && WholeText(whole) && FractionText(fraction) && ExponentText(exponent) && fraction + exponent != ""
  }

  ghost predicate FloatText(t: string) {
    || t == "NaN" || t == "Infinity" || t == "-Infinity"
    || exists sign, whole, fraction, exponent :: FloatParts(t, sign, whole, fraction, exponent)
  }

  /** The decimal text of the integer; zero may have a sign. */
  predicate IntegerText(t: string, n: int) { t == IntText(n) || (t == "-0" && n == 0) }

  lemma {:induction false} ScanWhole(whole: string, rest: string)
    requires WholeText(whole) && (rest == "" || !IsDigit(rest[0]))
    ensures var s := whole + rest;
            s != "" && IsDigit(s[0]) && s[|whole|..] == rest &&
            (if s[0] == '0' then 1 else Digits(s)) == |whole|
  {
    DigitsOf(whole, rest);
    hide Digits;
    assert (whole + rest)[0] == whole[0] && IsDigit(whole[0]);
  }

  lemma {:induction false} FractionIs(f: string, rest: string)
    requires FractionText(f) && (rest == "" || (!IsDigit(rest[0]) && rest[0] != '.'))
    ensures FractionLength(f + rest) == |f| && (f + rest)[|f|..] == rest
  {
    if f == "" {
      assert f + rest == rest;
    } else {
      assert (f + rest)[1..] == f[1..] + rest;
      DigitsOf(f[1..], rest);
    }
  }

  lemma {:induction false} ExponentIs(e: string)
    requires ExponentText(e)
    ensures ExponentLength(e) == |e|
  {
    if e != "" {
      if DigitText(e[1..]) {
        assert e[1..] + "" == e[1..] && IsDigit(e[1..][0]);
        DigitsOf(e[1..], "");
      } else {
        assert e[2..] + "" == e[2..];
        DigitsOf(e[2..], "");
      }
    }
  }

  /** The parts of a float without its sign are read as one. */
  lemma {:induction false} ScanFloat(whole: string, fraction: string, exponent: string)
    requires WholeText(whole) && FractionText(fraction) && ExponentText(exponent) && fraction + exponent != ""
    ensures var t := whole + (fraction + exponent);
            ScanUnsigned(t) == Parsed<Value>.Ok(Float(t), "") && IsDigit(t[0])
  {
    hide WholeText, FractionText, ExponentText, Digits, FractionLength, ExponentLength, ScanUnsigned;
    var tail := fraction + exponent;
    TailStarts(fraction, exponent);
    ScanWhole(whole, tail);
    FractionIs(fraction, exponent);
    ExponentIs(exponent);
    Ends(whole, fraction, exponent);
    ScanParts(whole + tail, |whole|, |fraction|);
  }

  lemma {:induction false} ScanParts(t: string, i: nat, n: nat)
    requires 0 < i <= i + n <= |t| && i < |t| && i == if t[0] == '0' then 1 else Digits(t)
    requires FractionLength(t[i..]) == n && ExponentLength(t[i + n..]) == |t| - i - n
    ensures ScanUnsigned(t) == Parsed<Value>.Ok(Float(t), "")
  {
    hide Digits, FractionLength, ExponentLength;
    assert t[..|t|] == t && t[|t|..] == "";
  }

  lemma {:induction false} TailStarts(fraction: string, exponent: string)
    requires FractionText(fraction) && ExponentText(exponent)
    ensures var tail := fraction + exponent; tail != "" ==> !IsDigit(tail[0])
    ensures exponent != "" ==> !IsDigit(exponent[0]) && exponent[0] != '.'
  {
    hide AllDigits;
    assert fraction != "" ==> (fraction + exponent)[0] == '.';
    assert fraction == "" ==> fraction + exponent == exponent;
  }

  lemma {:induction false} Ends(whole: string, fraction: string, exponent: string)
    ensures var t := whole + (fraction + exponent);
            t[|whole| + |fraction|..] == exponent && t[..|t|] == t && t[|t|..] == ""
  {
  }

  lemma {:induction false} ParseFloat(t: string)
    requires FloatText(t)
    ensures Parse(t) == Ok(Float(t), "")
  {
    hide Parse, FloatParts;
    ParseNamed();
    if t != "NaN" && t != "Infinity" && t != "-Infinity" {
      var sign, whole, fraction, exponent :| FloatParts(t, sign, whole, fraction, exponent);
      ParseFloatParts(t, sign, whole, fraction, exponent);
    }
  }

  lemma {:induction false} ParseFloatParts(t: string, sign: string, whole: string, fraction: string, exponent: string)
    requires FloatParts(t, sign, whole, fraction, exponent)
    ensures Parse(t) == Ok(Float(t), "")
  {
    hide ScanUnsigned, Parse, WholeText, FractionText, ExponentText, IsDigit;
    var u := whole + (fraction + exponent);
    ScanFloat(whole, fraction, exponent);
    if sign == "" {
      assert t == u;
      ParseDigitFirst(u);
    } else {
      ParseMinusFirst(u);
      assert ("-" + u)[1..] == u && t == "-" + u && t[..|t|] == t;
    }
  }

  lemma {:induction false} ParseNamed()
    ensures Parse("NaN") == Ok(Float("NaN"), "") && Parse("Infinity") == Ok(Float("Infinity"), "")
    ensures Parse("-Infinity") == Ok(Float("-Infinity"), "")
    ensures Parse("null") == Ok(Null, "") && Parse("true") == Ok(Bool(true), "")
            && Parse("false") == Ok(Bool(false), "")
  {
    hide ScanString, ParseItems, ParseFields, ScanNumber;
    assert "NaN"[3..] == "" && "Infinity"[8..] == "" && "-Infinity"[9..] == "";
    assert "null"[4..] == "" && "true"[4..] == "" && "false"[5..] == "";
  }

  lemma {:induction false} ParseInteger(t: string, n: int)
    requires IntegerText(t, n)
    ensures Parse(t) == Ok(Num(n), "")
  {
    if t == IntText(n) {
      ParsePrinted(COMPACT_ASCII, Num(n), "");
      assert t + "" == t;
    } else {
      NatTextIsDecimal(0);
      ScanDigits("0", "");
      assert "0" + "" == "0" && "-" + "0" == "-0";
      ParseMinusFirst("0");
      ScanMinus("0", 0, "");
    }
  }

  // ---------- and back ----------

  lemma {:induction false} DigitsEnd(s: string)
    ensures Digits(s) < |s| ==> !IsDigit(s[Digits(s)])
  {
    if s != "" && IsDigit(s[0]) { DigitsEnd(s[1..]); }
  }

  lemma {:induction false} DigitsText(s: string)
    ensures AllDigits(s[..Digits(s)])
  {
    DigitsAreDigits(s);
  }

  /** The digits of a number without superfluous zeros are its decimal text. */
  lemma {:induction false} NatTextOf(d: string)
    requires WholeText(d)
    ensures NatText(DigitsValue(d)) == d
    decreases |d|
  {
    var last := d[|d| - 1];
    assert IsDigit(last);
    var v := last as int - '0' as int;
    if |d| == 1 {
      assert d[..0] == "";
    } else {
      var init := d[..|d| - 1];
      assert init[0] == d[0];
      NatTextOf(init);
      var m := DigitsValue(init);
      DigitsPositive(init);
      assert DigitsValue(d) == m * 10 + v;
      assert (m * 10 + v) / 10 == m && (m * 10 + v) % 10 == v;
      assert init + [last] == d;
    }
  }

  lemma {:induction false} DigitsPositive(d: string)
    requires WholeText(d) && d[0] != '0'
    ensures DigitsValue(d) >= 1
    decreases |d|
  {
    assert IsDigit(d[0]);
    if |d| == 1 {
      assert d[..0] == "";
    } else {
      assert d[..|d| - 1][0] == d[0];
      DigitsPositive(d[..|d| - 1]);
    }
  }

  /** What a scanned number looks like, sign aside. */
  lemma {:induction false} UnsignedText(s: string)
    requires ScanUnsigned(s).Ok?
    ensures var r := ScanUnsigned(s);
            && Leaves(s, r.rest) && Eaten(s, r.rest) != "" && IsDigit(s[0])
            && match r.value
               case Num(n) => n >= 0 && Eaten(s, r.rest) == NatText(n)
               case Float(t) =>
                 && t == Eaten(s, r.rest)
                 && exists whole, fraction, exponent :: FloatParts(t, "", whole, fraction, exponent)
               case _ => false
  {
    hide ScanUnsigned, IntegerLength, NumberLength, NatText, FloatParts, DigitsValue;
    HasInteger(s);
    UnsignedStartsWithDigit(s);
    ScanUnsignedByLength(s);
    var i, n := IntegerLength(s), NumberLength(s);
    assert Eaten(s, ScanUnsigned(s).rest) == s[..n];
    if n == i {
      IntegerPart(s);
      DigitsAreDigits(s);
      NatTextOf(s[..i]);
    } else {
      FloatLayout(s);
    }
  }

  lemma {:induction false} FloatLayout(s: string)
    requires NumberLength(s) > IntegerLength(s) > 0
    ensures exists whole, fraction, exponent :: FloatParts(s[..NumberLength(s)], "", whole, fraction, exponent)
  {
    hide IntegerLength, FractionLength, ExponentLength, WholeText, FractionText, ExponentText;
    var i := IntegerLength(s);
    var j := i + FractionLength(s[i..]);
    var n := j + ExponentLength(s[j..]);
    IntegerPart(s);
    FractionPart(s[i..]);
    ExponentPart(s[j..]);
    ThreeParts(s, i, j, n);
    assert FloatParts(s[..n], "", s[..i], s[i..j], s[j..n]);
  }

  lemma {:induction false} ThreeParts(s: string, i: nat, j: nat, n: nat)
    requires i <= j <= n <= |s|
    ensures s[i..][..j - i] == s[i..j] && s[j..][..n - j] == s[j..n]
    ensures s[..n] == "" + (s[..i] + (s[i..j] + s[j..n]))
  {
  }

  lemma {:induction false} IntegerPart(s: string)
    requires IntegerLength(s) > 0
    ensures WholeText(s[..IntegerLength(s)])
  {
    DigitsText(s);
  }

  lemma {:induction false} FractionPart(s: string)
    ensures FractionText(s[..FractionLength(s)])
  {
    var n := FractionLength(s);
    if n > 0 {
      DigitsText(s[1..]);
      assert s[..n][1..] == s[1..][..n - 1];
    }
  }

  lemma {:induction false} ExponentPart(s: string)
    ensures ExponentText(s[..ExponentLength(s)])
  {
    var n := ExponentLength(s);
    if n > 0 {
      if |s| >= 2 && (s[1] == '+' || s[1] == '-') {
        DigitsText(s[2..]);
        assert s[..n][2..] == s[2..][..n - 2];
      } else {
        DigitsText(s[1..]);
        assert s[..n][1..] == s[1..][..n - 1];
      }
    }
  }

  /** What a scanned number looks like. */
  lemma {:induction false} NumberText(s: string)
    requires ScanNumber(s).Ok?
    ensures var r := ScanNumber(s);
            && Leaves(s, r.rest)
            && match r.value
               case Num(n) => IntegerText(Eaten(s, r.rest), n)
               case Float(t) => t == Eaten(s, r.rest) && FloatText(t)
               case _ => false
  {
    hide ScanUnsigned, NatText;
    var r := ScanNumber(s);
    if s != "" && s[0] == '-' {
      UnsignedText(s[1..]);
      var u := Eaten(s[1..], r.rest);
      assert s[1..][|s| - 1 - |r.rest|..] == s[|s| - |r.rest|..];
      assert Eaten(s, r.rest) == "-" + u;
      if r.value.Num? {
        NatTextZero();
        assert r.value.n == 0 ==> "-" + u == "-0";
      } else {
        var whole, fraction, exponent :| FloatParts(u, "", whole, fraction, exponent);
        assert u == whole + (fraction + exponent);
        assert FloatParts("-" + u, "-", whole, fraction, exponent);
      }
    } else {
      UnsignedText(s);
      if r.value.Float? {
        var whole, fraction, exponent :| FloatParts(r.value.lexeme, "", whole, fraction, exponent);
      }
    }
  }

  lemma {:induction false} NatTextZero()
    ensures NatText(0) == "0"
  {
  }

  // ---------- when a float is false ----------

  /** The digits behind the point. */
  function Behind(fraction: string): string { if fraction == "" then "" else fraction[1..] }

  /** The digits of an exponent, and whether it is negative. */
  function ExponentDigits(exponent: string): string {
    if exponent == "" then ""
    else if |exponent| >= 2 && (exponent[1] == '+' || exponent[1] == '-') then exponent[2..]
    else exponent[1..]
  }

  predicate IsNegative(exponent: string) { |exponent| >= 2 && exponent[1] == '-' }

  lemma {:induction false} PartsAreDigits(whole: string, fraction: string, exponent: string)
    requires WholeText(whole) && FractionText(fraction) && ExponentText(exponent)
    ensures AllDigits(whole + Behind(fraction)) && AllDigits(ExponentDigits(exponent))
  {
  }

  /** A float is false exactly when its digits, scaled by its exponent, are at most 2^-1075, half of
    the least positive double: then Python reads it as zero. */
  lemma {:induction false} FloatIsFalse(t: string, sign: string, whole: string, fraction: string, exponent: string)
    requires FloatParts(t, sign, whole, fraction, exponent)
    ensures AllDigits(whole + Behind(fraction)) && AllDigits(ExponentDigits(exponent))
    ensures var digits, e := DigitsValue(whole + Behind(fraction)), DigitsValue(ExponentDigits(exponent));
            var scale := (if IsNegative(exponent) then 0 - e else e) - |Behind(fraction)|;
            !Float(t).Truthy() <==> digits == 0 || (scale < 0 && digits * Power(2, 1075) <= Power(10, 0 - scale))
  {
    hide FloatParts, Scientific, DigitsValue, Power, Behind, ExponentDigits, IsNegative, AllDigits;
    NotNamed(t, sign, whole, fraction, exponent);
    ScientificIs(t, sign, whole, fraction, exponent);
  }

  lemma {:induction false} ScientificIs(t: string, sign: string, whole: string, fraction: string, exponent: string)
    requires FloatParts(t, sign, whole, fraction, exponent)
    ensures AllDigits(whole + Behind(fraction)) && AllDigits(ExponentDigits(exponent))
    ensures var e := DigitsValue(ExponentDigits(exponent));
            Scientific(t) ==
            (DigitsValue(whole + Behind(fraction)), (if IsNegative(exponent) then 0 - e else e) - |Behind(fraction)|)
  {
    hide FloatParts, Cut, DigitsIn, DigitsValue, CountDigits, WholeText, FractionText, ExponentText, Behind,
      ExponentDigits, AllDigits;
    PartsOf(t, sign, whole, fraction, exponent);
    PartsAreDigits(whole, fraction, exponent);
    CutsAtExponent(t, sign, whole, fraction, exponent);
    NumberDigits(sign, whole, fraction);
    ExponentIsRead(exponent);
  }

  lemma {:induction false} PartsOf(t: string, sign: string, whole: string, fraction: string, exponent: string)
    requires FloatParts(t, sign, whole, fraction, exponent)
    ensures (sign == "" || sign == "-") && WholeText(whole) && FractionText(fraction) && ExponentText(exponent)
  {
    hide WholeText, FractionText, ExponentText;
  }

  lemma {:induction false} NotNamed(t: string, sign: string, whole: string, fraction: string, exponent: string)
    requires FloatParts(t, sign, whole, fraction, exponent)
    ensures t !in ["NaN", "Infinity", "-Infinity"]
  {
    hide FractionText, ExponentText;
    assert IsDigit(whole[0]);
    assert sign == "" ==> t[0] == whole[0];
    assert sign == "-" ==> t[0] == '-' && t[1] == whole[0];
    assert "NaN"[0] == 'N' && "Infinity"[0] == 'I' && "-Infinity"[0] == '-' && "-Infinity"[1] == 'I';
  }

  lemma {:induction false} CutAt(s: string, rest: string, low: char, high: char)
    requires forall i :: 0 <= i < |s| ==> s[i] != low && s[i] != high
    requires rest == "" || rest[0] == low || rest[0] == high
    ensures Cut(s + rest, low, high) == (s, if rest == "" then "" else rest[1..])
  {
    if s == "" {
      assert s + rest == rest;
    } else {
      assert (s + rest)[1..] == s[1..] + rest;
      CutAt(s[1..], rest, low, high);
      assert [s[0]] + s[1..] == s;
    }
  }

  lemma {:induction false} CutsAtExponent(t: string, sign: string, whole: string, fraction: string, exponent: string)
    requires FloatParts(t, sign, whole, fraction, exponent)
    ensures Cut(t, 'e', 'E') == (sign + whole + fraction, if exponent == "" then "" else exponent[1..])
    ensures Cut(sign + whole + fraction, '.', '.').1 == Behind(fraction)
  {
    var number := sign + whole;
    assert t == (number + fraction) + exponent;
    assert forall i :: 0 <= i < |number| ==> number[i] == '-' || IsDigit(number[i]);
    assert forall i :: 0 < i < |fraction| ==> fraction[i] == fraction[1..][i - 1];
    hide WholeText;
    CutAt(number + fraction, exponent, 'e', 'E');
    CutAt(number, fraction, '.', '.');
  }

  lemma {:induction false} DigitsInDigits(d: string)
    requires AllDigits(d)
    ensures DigitsIn(d) == DigitsValue(d) && CountDigits(d) == |d|
    decreases |d|
  {
    if d != "" {
      DigitsInDigits(d[..|d| - 1]);
      DigitsInDigits(d[1..]);
      assert IsDigit(d[|d| - 1]) && IsDigit(d[0]);
    }
  }

  /** A character that is no digit does not count. */
  lemma {:induction false} DropOther(x: string, c: char, y: string)
    requires !IsDigit(c)
    ensures DigitsIn(x + [c] + y) == DigitsIn(x + y)
    decreases |y|
  {
    var s := x + [c] + y;
    if y == "" {
      assert s[..|s| - 1] == x && x + y == x;
    } else {
      DropOther(x, c, y[..|y| - 1]);
      assert s[..|s| - 1] == x + [c] + y[..|y| - 1] && (x + y)[..|x + y| - 1] == x + y[..|y| - 1];
    }
  }

  lemma {:induction false} NumberDigits(sign: string, whole: string, fraction: string)
    requires sign == "" || sign == "-"
    requires WholeText(whole) && FractionText(fraction)
    ensures AllDigits(whole + Behind(fraction))
    ensures DigitsIn(sign + whole + fraction) == DigitsValue(whole + Behind(fraction))
    ensures CountDigits(Behind(fraction)) == |Behind(fraction)|
  {
    var digits := whole + Behind(fraction);
    DigitsInDigits(digits);
    DigitsInDigits(Behind(fraction));
    hide DigitsIn, DigitsValue, CountDigits, AllDigits, WholeText;
    DropOther("", '-', whole + fraction);
    DropOther(whole, '.', Behind(fraction));
    NumberJoins(sign, whole, fraction);
  }

  lemma {:induction false} NumberJoins(sign: string, whole: string, fraction: string)
    requires (sign == "" || sign == "-") && (fraction == "" || fraction[0] == '.')
    ensures sign + whole + fraction == if sign == "" then whole + fraction else "" + ['-'] + (whole + fraction)
    ensures whole + fraction == if fraction == "" then whole + Behind(fraction) else whole + ['.'] + Behind(fraction)
    ensures "" + (whole + fraction) == whole + fraction
  {
    Associative(sign, whole, fraction);
    assert "" + (whole + fraction) == whole + fraction;
    assert "" + ['-'] == "-";
    Associative(whole, ['.'], Behind(fraction));
    if fraction == "" {
      assert whole + fraction == whole && whole + Behind(fraction) == whole;
    } else {
      assert fraction == ['.'] + Behind(fraction);
    }
  }

  lemma {:induction false} ExponentIsRead(exponent: string)
    requires ExponentText(exponent)
    ensures AllDigits(ExponentDigits(exponent))
    ensures var e := if exponent == "" then "" else exponent[1..];
            && DigitsIn(e) == DigitsValue(ExponentDigits(exponent))
            && (IsNegative(exponent) <==> e != "" && e[0] == '-')
  {
    var d := ExponentDigits(exponent);
    DigitsInDigits(d);
    hide DigitsIn, DigitsValue;
    if exponent != "" && d != exponent[1..] {
      assert exponent[1..] == "" + [exponent[1]] + d;
      DropOther("", exponent[1], d);
      assert "" + d == d;
    }
  }

  /** What Python takes for false, floats aside. */
  lemma {:induction false} FalseIff(v: Value)
    requires !v.Float?
    ensures !v.Truthy() <==> v in [Null, Bool(false), Num(0), Str(""), Arr([]), Obj([])]
  {
    var f := [Null, Bool(false), Num(0), Str(""), Arr([]), Obj([])];
    assert f[0] == Null && f[1] == Bool(false) && f[2] == Num(0) && f[3] == Str("") && f[4] == Arr([])
      && f[5] == Obj([]);
  }
}
