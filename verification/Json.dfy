/** JSON values as Python's `json` module sees them, its encoder and its decoder.

  A Python `str` is a Dafny `string`: a `char` is a Unicode scalar value, so a lone
  surrogate has no representation and every string here is surrogate-free.
  A `dict` is a sequence of fields in insertion order. */
module Json {

  datatype Option<+T> = None | Some(value: T)

  datatype Field = Field(key: string, value: Value)

  datatype Value =
    | Null
    | Bool(b: bool)
    | Num(n: int)
    | Float(lexeme: string)  // a float, known only by the text it was read from
    | Str(s: string)
    | Arr(items: seq<Value>)
    | Obj(fields: seq<Field>)
  {
    /** Python's truth value, as used by `if prev`, `x or {}`. */
    predicate Truthy() {
      match this
      case Null => false
      case Bool(b) => b
      case Num(n) => n != 0
      case Float(lexeme) => !RoundsToZero(lexeme)
      case Str(s) => s != ""
      case Arr(items) => items != []
      case Obj(fields) => fields != []
    }
  }

  // ---------- when a float is zero ----------

  /** The number the digits of a text make, whatever stands between them. */
  function DigitsIn(s: string): nat {
    if s == "" then 0
    else
      var last := s[|s| - 1];
      if '0' <= last <= '9' then DigitsIn(s[..|s| - 1]) * 10 + (last as int - '0' as int) else DigitsIn(s[..|s| - 1])
  }

  function CountDigits(s: string): nat {
    if s == "" then 0 else (if '0' <= s[0] <= '9' then 1 else 0) + CountDigits(s[1..])
  }

  /** What stands before the first of the marks, and what after it. */
  function Cut(s: string, low: char, high: char): (string, string) {
    if s == "" then ("", "")
    else if s[0] == low || s[0] == high then ("", s[1..])
    else var (before, after) := Cut(s[1..], low, high); ([s[0]] + before, after)
  }

  function Power(base: nat, n: nat): nat { if n == 0 then 1 else base * Power(base, n - 1) }

  /** A number text, sign aside, is `digits * 10^exponent`. */
  function Scientific(lexeme: string): (nat, int) {
    var (number, exponent) := Cut(lexeme, 'e', 'E');
    var (_, fraction) := Cut(number, '.', '.');
    var e: int := DigitsIn(exponent);
    (DigitsIn(number), (if exponent != "" && exponent[0] == '-' then -e else e) - CountDigits(fraction))
  }

  /** The nearest IEEE 754 double is zero: the number is no more than half the least one, 2^-1074. */
  predicate RoundsToZero(lexeme: string) {
    lexeme !in ["NaN", "Infinity", "-Infinity"] &&
    var (digits, exponent) := Scientific(lexeme);
    digits == 0 || (exponent < 0 && digits * Power(2, 1075) <= Power(10, -exponent))
  }

  // ---------- Python's `str` ----------

  /** `str(v)`; of floats, lists and dicts it is a parameter. */
  function StrOf(other: Value -> string, v: Value): string {
    match v
    case Null => "None"
    case Bool(b) => if b then "True" else "False"
    case Num(n) => IntText(n)
    case Str(s) => s
    case _ => other(v)
  }

  // ---------- dict operations ----------

  /** `d.get(key)`, telling an absent key from a `None` value. */
  function Find(fields: seq<Field>, key: string): Option<Value> {
    if fields == [] then None
    else if fields[0].key == key then Some(fields[0].value)
    else Find(fields[1..], key)
  }

  /** `d[key] = value`: an existing key keeps its position. */
  function Assign(fields: seq<Field>, key: string, value: Value): seq<Field> {
    if fields == [] then [Field(key, value)]
    else if fields[0].key == key then [Field(key, value)] + fields[1..]
    else [fields[0]] + Assign(fields[1..], key, value)
  }

  /** `dict(pairs)`: later duplicates overwrite earlier ones. */
  function FromPairs(pairs: seq<Field>): seq<Field> {
    if pairs == [] then []
    else Assign(FromPairs(pairs[..|pairs| - 1]), pairs[|pairs| - 1].key, pairs[|pairs| - 1].value)
  }

  ghost predicate Distinct(fields: seq<Field>) {
    forall i, j :: 0 <= i < j < |fields| ==> fields[i].key != fields[j].key
  }

  /** A value a Python program can hold: dict keys are distinct, and there are no floats. */
  ghost predicate Plain(v: Value) {
    match v
    case Float(_) => false
    case Arr(items) => forall i :: 0 <= i < |items| ==> Plain(items[i])
    case Obj(fields) => Distinct(fields) && forall i :: 0 <= i < |fields| ==> Plain(fields[i].value)
    case _ => true
  }

  ghost predicate PlainFields(fields: seq<Field>) {
    Distinct(fields) && forall i :: 0 <= i < |fields| ==> Plain(fields[i].value)
  }

  // ---------- encoder: json.dumps ----------

  /** `ascii` is `ensure_ascii`; `spaced` selects the default separators over (",", ":"). */
  datatype Style = Style(ascii: bool, spaced: bool) {
    function Gap(): string { if spaced then " " else "" }
  }

  const COMPACT_ASCII := Style(true, false)
  const COMPACT_UTF8 := Style(false, false)
  const DEFAULT_ASCII := Style(true, true)

  const BACKSPACE := '\U{0008}'
  const FORM_FEED := '\U{000C}'

  function HexDigit(d: int): char
    requires 0 <= d < 16
  {
    if d < 10 then (d + '0' as int) as char else (d - 10 + 'a' as int) as char
  }

  function Hex4(n: int): (h: string)
    requires 0 <= n < 0x10000
    ensures |h| == 4
  {
    [HexDigit(n / 0x1000), HexDigit(n / 0x100 % 16), HexDigit(n / 16 % 16), HexDigit(n % 16)]
  }

  function UnicodeEscape(n: int): string
    requires 0 <= n < 0x10000
  {
    "\\u" + Hex4(n)
  }

  /** Section 7 of RFC 8259: a character outside the basic plane is a surrogate pair. */
  function EscapeChar(ascii: bool, c: char): string {
    if c == '"' then "\\\""
    else if c == '\\' then "\\\\"
    else if c == '\n' then "\\n"
    else if c == '\r' then "\\r"
    else if c == '\t' then "\\t"
    else if c == FORM_FEED then "\\f"
    else if c == BACKSPACE then "\\b"
    else if c < ' ' then UnicodeEscape(c as int)
    else if ascii && '~' < c then
      if c as int < 0x10000 then UnicodeEscape(c as int)
      else UnicodeEscape(0xD800 + (c as int - 0x10000) / 0x400) + UnicodeEscape(0xDC00 + (c as int - 0x10000) % 0x400)
    else [c]
  }

  function Escape(ascii: bool, s: string): string {
    if s == "" then "" else EscapeChar(ascii, s[0]) + Escape(ascii, s[1..])
  }

  function Quote(ascii: bool, s: string): string {
    "\"" + Escape(ascii, s) + "\""
  }

  function NatText(n: nat): string {
    if n < 10 then [(n + '0' as int) as char]
    else NatText(n / 10) + [(n % 10 + '0' as int) as char]
  }

  function IntText(n: int): string {
    if n < 0 then "-" + NatText(-n) else NatText(n)
  }

  function Print(st: Style, v: Value): string
    decreases v
  {
    match v
    case Null => "null"
    case Bool(b) => if b then "true" else "false"
    case Num(n) => IntText(n)
    case Float(lexeme) => lexeme
    case Str(s) => Quote(st.ascii, s)
    case Arr(items) => if items == [] then "[]" else "[" + PrintItems(st, items)
    case Obj(fields) => if fields == [] then "{}" else "{" + PrintFields(st, fields)
  }

  /** The items and the closing bracket. */
  function PrintItems(st: Style, items: seq<Value>): string
    requires items != []
    decreases items
  {
    Print(st, items[0]) +
    if |items| == 1 then "]" else "," + st.Gap() + PrintItems(st, items[1..])
  }

  /** The members and the closing brace. */
  function PrintFields(st: Style, fields: seq<Field>): string
    requires fields != []
    decreases fields
  {
    Quote(st.ascii, fields[0].key) + ":" + st.Gap() + Print(st, fields[0].value) +
    if |fields| == 1 then "}" else "," + st.Gap() + PrintFields(st, fields[1..])
  }

  // ---------- decoder: json.loads ----------

  /** What a scanner read from the front of its input, and what is left; `Bad` is a JSONDecodeError. */
  datatype Parsed<+T> = Bad | Ok(value: T, rest: string)

  predicate IsSpace(c: char) { c == ' ' || c == '\t' || c == '\n' || c == '\r' }

  function SkipSpace(s: string): (r: string)
    ensures |r| <= |s|
  {
    if s != "" && IsSpace(s[0]) then SkipSpace(s[1..]) else s
  }

  /** The value of a hexadecimal digit, or -1. */
  function HexValue(c: char): (d: int)
    ensures -1 <= d < 16
  {
    if '0' <= c <= '9' then c as int - '0' as int
    else if 'a' <= c <= 'f' then c as int - 'a' as int + 10
    else if 'A' <= c <= 'F' then c as int - 'A' as int + 10
    else -1
  }

  function ScanHex4(s: string): (r: Option<int>)
    ensures r.Some? ==> |s| >= 4 && 0 <= r.value < 0x10000
  {
    if |s| < 4 then None
    else
      var a, b, c, d := HexValue(s[0]), HexValue(s[1]), HexValue(s[2]), HexValue(s[3]);
      if a < 0 || b < 0 || c < 0 || d < 0 then None
      else Some(a * 0x1000 + b * 0x100 + c * 16 + d)
  }

  /** The part of an escape after `\u`. A lone surrogate has no character here. */
  function ScanUnicode(s: string): (r: Parsed<char>)
    ensures r.Ok? ==> |r.rest| < |s|
  {
    match ScanHex4(s)
    case None => Bad
    case Some(n) =>
      if 0xD800 <= n < 0xDC00 then
        if |s| >= 6 && s[4] == '\\' && s[5] == 'u' then
          match ScanHex4(s[6..])
          case None => Bad
          case Some(m) =>
            if 0xDC00 <= m < 0xE000 then
              Ok((0x10000 + (n - 0xD800) * 0x400 + (m - 0xDC00)) as char, s[10..])
            else Bad
        else Bad
      else if 0xDC00 <= n < 0xE000 then Bad
      else Ok(n as char, s[4..])
  }

  /** The part of an escape after the backslash. */
  function ScanEscape(s: string): (r: Parsed<char>)
    ensures r.Ok? ==> |r.rest| < |s|
  {
    if s == "" then Bad
    else if s[0] == 'u' then ScanUnicode(s[1..])
    else if s[0] == '"' then Ok('"', s[1..])
    else if s[0] == '\\' then Ok('\\', s[1..])
    else if s[0] == '/' then Ok('/', s[1..])
    else if s[0] == 'b' then Ok(BACKSPACE, s[1..])
    else if s[0] == 'f' then Ok(FORM_FEED, s[1..])
    else if s[0] == 'n' then Ok('\n', s[1..])
    else if s[0] == 'r' then Ok('\r', s[1..])
    else if s[0] == 't' then Ok('\t', s[1..])
    else Bad
  }

  /** One character of a string literal, the closing quote not among them. */
  function ScanChar(s: string): (r: Parsed<char>)
    ensures r.Ok? ==> |r.rest| < |s|
  {
    if s == "" || s[0] == '"' then Bad
    else if s[0] == '\\' then ScanEscape(s[1..])
    else if s[0] < ' ' then Bad
    else Ok(s[0], s[1..])
  }

  /** A string literal after its opening quote. */
  function ScanString(s: string): (r: Parsed<string>)
    ensures r.Ok? ==> |r.rest| < |s|
    decreases |s|
  {
    if s != "" && s[0] == '"' then Ok("", s[1..])
    else
      match ScanChar(s)
      case Bad => Bad
      case Ok(c, rest) =>
        match ScanString(rest)
        case Bad => Bad
        case Ok(text, rest') => Ok([c] + text, rest')
  }

  predicate IsDigit(c: char) { '0' <= c <= '9' }

  /** How many digits the input starts with. */
  function Digits(s: string): (n: nat)
    ensures n <= |s|
  {
    if s != "" && IsDigit(s[0]) then 1 + Digits(s[1..]) else 0
  }

  function DigitsValue(s: string): nat
    requires forall i :: 0 <= i < |s| ==> IsDigit(s[i])
  {
    if s == "" then 0
    else
      assert IsDigit(s[|s| - 1]);
      DigitsValue(s[..|s| - 1]) * 10 + (s[|s| - 1] as int - '0' as int)
  }

  lemma DigitsAreDigits(s: string)
    ensures forall i :: 0 <= i < Digits(s) ==> IsDigit(s[i])
  {
    if s != "" && IsDigit(s[0]) {
      DigitsAreDigits(s[1..]);
      forall i | 0 <= i < Digits(s) ensures IsDigit(s[i]) {
        if i > 0 { assert s[i] == s[1..][i - 1]; }
      }
    }
  }

  /** Length of an optional fraction part. */
  function FractionLength(s: string): (n: nat)
    ensures n <= |s|
  {
    if s != "" && s[0] == '.' && Digits(s[1..]) > 0 then 1 + Digits(s[1..]) else 0
  }

  /** Length of an optional exponent part. */
  function ExponentLength(s: string): (n: nat)
    ensures n <= |s|
  {
    if s == "" || (s[0] != 'e' && s[0] != 'E') then 0
    else if |s| >= 2 && (s[1] == '+' || s[1] == '-') then
      if Digits(s[2..]) > 0 then 2 + Digits(s[2..]) else 0
    else if Digits(s[1..]) > 0 then 1 + Digits(s[1..]) else 0
  }

  /** A number without its sign. */
  function ScanUnsigned(s: string): (r: Parsed<Value>)
    ensures r.Ok? ==> |r.rest| < |s|
  {
    var intLength := if s != "" && s[0] == '0' then 1 else Digits(s);
    if intLength == 0 then Bad
    else
      var more := FractionLength(s[intLength..]) + ExponentLength(s[intLength + FractionLength(s[intLength..])..]);
      if more > 0 then Ok(Float(s[..intLength + more]), s[intLength + more..])
      else
        DigitsAreDigits(s);
        Ok(Num(DigitsValue(s[..intLength])), s[intLength..])
  }

  function ScanNumber(s: string): (r: Parsed<Value>)
    ensures r.Ok? ==> |r.rest| < |s|
  {
    if s != "" && s[0] == '-' then
      match ScanUnsigned(s[1..])
      case Bad => Bad
      case Ok(v, rest) => Ok(if v.Num? then Num(-v.n) else Float(s[..|s| - |rest|]), rest)
    else ScanUnsigned(s)
  }

  function Word(s: string, word: string, v: Value): (r: Parsed<Value>)
    requires word != ""
    ensures r.Ok? ==> |r.rest| < |s|
  {
    if word <= s then Ok(v, s[|word|..]) else Bad
  }

  function Parse(s: string): (r: Parsed<Value>)
    ensures r.Ok? ==> |r.rest| < |s|
    decreases |s|, 0
  {
    if s == "" then Bad
    else if s[0] == '"' then
      match ScanString(s[1..]) { case Bad => Bad case Ok(t, rest) => Ok(Str(t), rest) }
    else if s[0] == '[' then
      var body := SkipSpace(s[1..]);
      if body != "" && body[0] == ']' then Ok(Arr([]), body[1..])
      else match ParseItems(body) { case Bad => Bad case Ok(items, rest) => Ok(Arr(items), rest) }
    else if s[0] == '{' then
      var body := SkipSpace(s[1..]);
      if body != "" && body[0] == '}' then Ok(Obj([]), body[1..])
      else match ParseFields(body) { case Bad => Bad case Ok(pairs, rest) => Ok(Obj(FromPairs(pairs)), rest) }
    else if s[0] == 'n' then Word(s, "null", Null)
    else if s[0] == 't' then Word(s, "true", Bool(true))
    else if s[0] == 'f' then Word(s, "false", Bool(false))
    else if s[0] == 'N' then Word(s, "NaN", Float("NaN"))
    else if s[0] == 'I' then Word(s, "Infinity", Float("Infinity"))
    else if "-Infinity" <= s then Ok(Float("-Infinity"), s[9..])
    else ScanNumber(s)
  }

  /** The items of a nonempty array and its closing bracket. */
  function ParseItems(s: string): (r: Parsed<seq<Value>>)
    ensures r.Ok? ==> |r.rest| < |s|
    decreases |s|, 1
  {
    match Parse(s)
    case Bad => Bad
    case Ok(v, rest) =>
      var next := SkipSpace(rest);
      if next == "" then Bad
      else if next[0] == ']' then Ok([v], next[1..])
      else if next[0] == ',' then
        match ParseItems(SkipSpace(next[1..])) { case Bad => Bad case Ok(vs, rest') => Ok([v] + vs, rest') }
      else Bad
  }

  /** The members of a nonempty object and its closing brace. */
  function ParseFields(s: string): (r: Parsed<seq<Field>>)
    ensures r.Ok? ==> |r.rest| < |s|
    decreases |s|, 1
  {
    if s == "" || s[0] != '"' then Bad
    else
      match ScanString(s[1..])
      case Bad => Bad
      case Ok(key, afterKey) =>
        var colon := SkipSpace(afterKey);
        if colon == "" || colon[0] != ':' then Bad
        else ParseMember(key, SkipSpace(colon[1..]))
  }

  /** The value of a member whose key has been read, and what follows it. */
  function ParseMember(key: string, s: string): (r: Parsed<seq<Field>>)
    ensures r.Ok? ==> |r.rest| < |s|
    decreases |s|, 1
  {
    match Parse(s)
    case Bad => Bad
    case Ok(v, rest) =>
      var next := SkipSpace(rest);
      if next == "" then Bad
      else if next[0] == '}' then Ok([Field(key, v)], next[1..])
      else if next[0] == ',' then
        match ParseFields(SkipSpace(next[1..])) { case Bad => Bad case Ok(fs, rest') => Ok([Field(key, v)] + fs,
          rest') }
      else Bad
  }

  /** `json.loads`: one value, with white space around it and nothing else. */
  function Loads(s: string): Option<Value> {
    match Parse(SkipSpace(s))
    case Bad => None
    case Ok(v, rest) => if SkipSpace(rest) == "" then Some(v) else None
  }
}
