/** What `json.loads` returns is a value a Python program can hold. */
module JsonLoaded {
  import opened Json

  ghost predicate FloatFree(v: Value) {
    match v
    case Float(_) => false
    case Arr(items) => forall i :: 0 <= i < |items| ==> FloatFree(items[i])
    case Obj(fields) => forall i :: 0 <= i < |fields| ==> FloatFree(fields[i].value)
    case _ => true
  }

  /** Every object in the value has distinct keys. */
  ghost predicate KeyedOnce(v: Value) {
    match v
    case Arr(items) => forall i :: 0 <= i < |items| ==> KeyedOnce(items[i])
    case Obj(fields) => Distinct(fields) && forall i :: 0 <= i < |fields| ==> KeyedOnce(fields[i].value)
    case _ => true
  }

  lemma {:induction false} AssignFields(fields: seq<Field>, key: string, v: Value)
    requires Distinct(fields)
    ensures Distinct(Assign(fields, key, v))
    ensures forall i :: 0 <= i < |Assign(fields, key, v)| ==>
      Assign(fields, key, v)[i] == Field(key, v) || Assign(fields, key, v)[i] in fields
  {
    if fields != [] && fields[0].key != key {
      AssignFields(fields[1..], key, v);
    }
  }

  lemma {:induction false} FromPairsDistinct(pairs: seq<Field>)
    ensures Distinct(FromPairs(pairs))
    ensures forall i :: 0 <= i < |FromPairs(pairs)| ==> FromPairs(pairs)[i] in pairs
  {
    if pairs != [] {
      var n := |pairs| - 1;
      FromPairsDistinct(pairs[..n]);
      AssignFields(FromPairs(pairs[..n]), pairs[n].key, pairs[n].value);
    }
  }

  lemma {:induction false} ParseKeyedOnce(s: string)
    ensures Parse(s).Ok? ==> KeyedOnce(Parse(s).value)
    decreases |s|, 0
  {
    if s != "" && s[0] == '[' {
      var body := SkipSpace(s[1..]);
      ParseItemsKeyedOnce(body);
    } else if s != "" && s[0] == '{' {
      var body := SkipSpace(s[1..]);
      ParseFieldsKeyedOnce(body);
      if ParseFields(body).Ok? { FromPairsDistinct(ParseFields(body).value); }
    }
  }

  lemma {:induction false} ParseItemsKeyedOnce(s: string)
    ensures ParseItems(s).Ok? ==>
      forall i :: 0 <= i < |ParseItems(s).value| ==> KeyedOnce(ParseItems(s).value[i])
    decreases |s|, 1
  {
    ParseKeyedOnce(s);
    if ParseItems(s).Ok? {
      var next := SkipSpace(Parse(s).rest);
      if next[0] == ',' { ParseItemsKeyedOnce(SkipSpace(next[1..])); }
    }
  }

  lemma {:induction false} ParseFieldsKeyedOnce(s: string)
    ensures ParseFields(s).Ok? ==>
      forall i :: 0 <= i < |ParseFields(s).value| ==> KeyedOnce(ParseFields(s).value[i].value)
    decreases |s|, 1
  {
    if ParseFields(s).Ok? {
      var colon := SkipSpace(ScanString(s[1..]).rest);
      ParseMemberKeyedOnce(ScanString(s[1..]).value, SkipSpace(colon[1..]));
    }
  }

  lemma {:induction false} ParseMemberKeyedOnce(key: string, s: string)
    ensures ParseMember(key, s).Ok? ==>
      forall i :: 0 <= i < |ParseMember(key, s).value| ==> KeyedOnce(ParseMember(key, s).value[i].value)
    decreases |s|, 1
  {
    ParseKeyedOnce(s);
    if ParseMember(key, s).Ok? {
      var next := SkipSpace(Parse(s).rest);
      if next[0] == ',' { ParseFieldsKeyedOnce(SkipSpace(next[1..])); }
    }
  }

  /** Every dict that was loaded has distinct keys, however often the text repeats one. */
  lemma {:induction false} LoadsKeyedOnce(s: string)
    requires Loads(s).Some?
    ensures KeyedOnce(Loads(s).value)
  {
    ParseKeyedOnce(SkipSpace(s));
  }

  /** The values a program can hold are the float-free ones with distinct keys. */
  lemma {:induction false} PlainIs(v: Value)
    ensures Plain(v) <==> KeyedOnce(v) && FloatFree(v)
    decreases v
  {
    match v
    case Arr(items) => forall i | 0 <= i < |items| { PlainIs(items[i]); }
    case Obj(fields) => forall i | 0 <= i < |fields| { PlainIs(fields[i].value); }
    case _ =>
  }

  lemma {:induction false} LoadsPlain(s: string)
    requires Loads(s).Some?
    ensures Plain(Loads(s).value) <==> FloatFree(Loads(s).value)
  {
    hide Loads, Plain, KeyedOnce, FloatFree;
    LoadsKeyedOnce(s);
    PlainIs(Loads(s).value);
  }

  // ---------- the truth value of floats ----------

  lemma {:induction false} CutAt(s: string, k: nat, low: char, high: char)
    requires k < |s| && (s[k] == low || s[k] == high) && forall i :: 0 <= i < k ==> s[i] != low && s[i] != high
    ensures Cut(s, low, high) == (s[..k], s[k + 1..])
  {
    if k > 0 {
      CutAt(s[1..], k - 1, low, high);
      assert [s[0]] + s[1..][..k - 1] == s[..k] && s[1..][k - 1 + 1..] == s[k + 1..];
    }
  }

  lemma {:induction false} CutNowhere(s: string, low: char, high: char)
    requires forall i :: 0 <= i < |s| ==> s[i] != low && s[i] != high
    ensures Cut(s, low, high) == (s, "")
  {
    if s != "" {
      CutNowhere(s[1..], low, high);
      assert [s[0]] + s[1..] == s;
    }
  }

  lemma {:induction false} DigitsInOne(s: string, last: char)
    ensures DigitsIn(s + [last]) ==
            if '0' <= last <= '9' then DigitsIn(s) * 10 + (last as int - '0' as int) else DigitsIn(s)
  {
    assert (s + [last])[..|s|] == s;
  }

  /** A float whose digits are all zero is false, whatever its sign and exponent. */
  lemma {:induction false} ZeroIsFalse(lexeme: string)
    requires lexeme !in ["NaN", "Infinity", "-Infinity"]
    requires forall i :: 0 <= i < |Cut(lexeme, 'e', 'E').0| ==> !('1' <= Cut(lexeme, 'e', 'E').0[i] <= '9')
    ensures !Float(lexeme).Truthy()
  {
    NoDigits(Cut(lexeme, 'e', 'E').0);
    hide Cut, Power, CountDigits;
  }

  lemma {:induction false} NoDigits(s: string)
    requires forall i :: 0 <= i < |s| ==> !('1' <= s[i] <= '9')
    ensures DigitsIn(s) == 0
  {
    if s != "" { NoDigits(s[..|s| - 1]); }
  }

  lemma {:induction false} EightBelowTen(n: nat)
    ensures Power(2, n) <= Power(10, n / 3 + 1)
  {
    if n >= 3 {
      EightBelowTen(n - 3);
      var m := n - 3;
      assert Power(2, n) == 2 * Power(2, m + 2) == 4 * Power(2, m + 1) == 8 * Power(2, m);
      assert n / 3 == m / 3 + 1;
      assert Power(10, n / 3 + 1) == 10 * Power(10, m / 3 + 1);
    } else {
      assert Power(10, 1) == 10 * Power(10, 0);
      assert Power(2, 1) == 2 * Power(2, 0);
      assert n == 2 ==> Power(2, 2) == 2 * Power(2, 1);
    }
  }

  lemma {:induction false} PowerGrows(base: nat, m: nat, n: nat)
    requires m <= n && base >= 1
    ensures 1 <= Power(base, m) <= Power(base, n)
    decreases n
  {
    if m < n {
      PowerGrows(base, m, n - 1);
      NotLess(base, Power(base, n - 1));
    } else if m > 0 {
      PowerGrows(base, m - 1, m - 1);
      NotLess(base, Power(base, m - 1));
    }
  }

  lemma {:induction false} NotLess(b: nat, p: nat)
    requires b >= 1
    ensures b * p >= p
  {
  }

  lemma {:induction false} TinyIs()
    ensures Scientific("1e-400") == (1, -400)
  {
    hide Power, Scientific;
    var lexeme := "1e-400";
    CutAt(lexeme, 1, 'e', 'E');
    assert lexeme[..1] == "1" && lexeme[2..] == "-400";
    CutNowhere("1", '.', '.');
    hide Cut;
    TinyDigits();
    ScientificOf(lexeme, "1", "-400", "1", "");
    assert CountDigits("") == 0;
  }

  lemma {:induction false} ScientificOf(lexeme: string, number: string, exponent: string, whole: string,
                                        fraction: string)
    requires Cut(lexeme, 'e', 'E') == (number, exponent) && Cut(number, '.', '.') == (whole, fraction)
    requires exponent != "" && exponent[0] == '-'
    ensures Scientific(lexeme).0 == DigitsIn(number)
    ensures Scientific(lexeme).1 == 0 - DigitsIn(exponent) - CountDigits(fraction)
  {
    hide Cut, DigitsIn, CountDigits;
  }

  lemma {:induction false} TinyDigits()
    ensures DigitsIn("1") == 1 && DigitsIn("-400") == 400
  {
    DigitsInOne("", '1');
    DigitsInOne("", '-');
    DigitsInOne("-", '4');
    DigitsInOne("-4", '0');
    DigitsInOne("-40", '0');
    assert DigitsIn("") == 0;
    hide DigitsIn;
    assert "" + ['1'] == "1" && "" + ['-'] == "-" && "-" + ['4'] == "-4" && "-4" + ['0'] == "-40"
           && "-40" + ['0'] == "-400";
  }

  /** A text that is not zero but below half the least double is false too. */
  lemma {:induction false} UnderflowIsFalse()
    ensures !Float("1e-400").Truthy()
  {
    hide Scientific, Power;
    TinyIs();
    EightBelowTen(1075);
    PowerGrows(10, 359, 400);
    assert "1e-400"[0] != "NaN"[0] && "1e-400"[0] != "Infinity"[0] && "1e-400"[0] != "-Infinity"[0];
  }
}
