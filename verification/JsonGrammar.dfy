/** The grammar of JSON texts and what they denote, written without the decoder: sections 2 to 5 of
  RFC 8259. `json.loads` accepts exactly these texts, with these values. */
module JsonGrammar {
  import opened Sequences
  import opened Json
  import opened JsonRoundTrip
  import opened JsonLoaded
  import opened JsonPrefix
  import opened JsonSpelling
  import opened JsonNumbers

  // ---------- the grammar ----------

  /** White space between tokens. */
  predicate IsGap(g: string) {
    forall i :: 0 <= i < |g| ==> g[i] == ' ' || g[i] == '\U{9}' || g[i] == '\U{A}' || g[i] == '\U{D}'
  }

  /** A value and the white space around it. */
  datatype Item = Item(before: string, body: string, after: string) {
    function Text(): string { before + (body + after) }
  }

  /** A key and its colon, and the value. */
  datatype Member = Member(before: string, key: string, gap: string, item: Item) {
    function Text(): string { before + ("\"" + (key + ("\"" + (gap + (":" + item.Text()))))) }
  }

  /** The text denotes the value. */
  ghost predicate Denotes(t: string, v: Value)
    decreases |t|, 0
  {
    match v
    case Null => t == "null"
    case Bool(b) => t == if b then "true" else "false"
    case Num(n) => IntegerText(t, n)
    case Float(lexeme) => t == lexeme && FloatText(t)
    case Str(s) => |t| >= 2 && t == "\"" + (t[1..|t| - 1] + "\"") && Spells(t[1..|t| - 1], s)
    case Arr(items) => Enclosed(t, "[", "]") && if items == [] then IsGap(Inside(t)) else ItemsText(Inside(t), items)
    case Obj(fields) =>
      Enclosed(t, "{", "}") &&
      if fields == [] then IsGap(Inside(t))
      else exists pairs :: MembersText(Inside(t), pairs) && fields == FromPairs(pairs)
  }

  predicate Enclosed(t: string, open: string, close: string) {
    |t| >= 2 && t == open + (Inside(t) + close)
  }

  function Inside(t: string): (r: string)
    ensures |t| >= 2 ==> |r| == |t| - 2
  {
    if |t| >= 2 then t[1..|t| - 1] else ""
  }

  /** Values with commas between them. */
  ghost predicate ItemsText(t: string, items: seq<Value>)
    decreases |t|, 2
  {
    items != [] && exists item, more :: ItemsCut(t, items, item, more)
  }

  ghost predicate ItemsCut(t: string, items: seq<Value>, item: Item, more: string)
    requires items != []
    decreases |t|, 1
  {
    && t == item.Text() + (if |items| == 1 then "" else "," + more)
    && IsGap(item.before) && IsGap(item.after) && |item.body| <= |t| && Denotes(item.body, items[0])
    && (|items| > 1 ==> |more| < |t| && ItemsText(more, items[1..]))
  }

  /** Members with commas between them. */
  ghost predicate MembersText(t: string, pairs: seq<Field>)
    decreases |t|, 2
  {
    pairs != [] && exists member, more :: MembersCut(t, pairs, member, more)
  }

  ghost predicate MembersCut(t: string, pairs: seq<Field>, member: Member, more: string)
    requires pairs != []
    decreases |t|, 1
  {
    && t == member.Text() + (if |pairs| == 1 then "" else "," + more)
    && IsGap(member.before) && IsGap(member.gap) && IsGap(member.item.before) && IsGap(member.item.after)
    && Spells(member.key, pairs[0].key)
    && |member.item.body| <= |t| && Denotes(member.item.body, pairs[0].value)
    && (|pairs| > 1 ==> |more| < |t| && MembersText(more, pairs[1..]))
  }

  // ---------- white space ----------

  lemma {:induction false} SkipsGap(g: string, s: string)
    requires IsGap(g) && (s == "" || !IsSpace(s[0]))
    ensures SkipSpace(g + s) == s
  {
    if g == "" {
      assert g + s == s;
    } else {
      assert (g + s)[0] == g[0] && (g + s)[1..] == g[1..] + s;
      SkipsGap(g[1..], s);
    }
  }

  lemma {:induction false} Skipped(s: string)
    ensures var r := SkipSpace(s);
            Leaves(s, r) && IsGap(Eaten(s, r)) && s == Eaten(s, r) + r && (r == "" || !IsSpace(r[0]))
  {
    hide Leaves, Eaten, IsSpace;
    if s != "" && IsSpace(s[0]) {
      Skipped(s[1..]);
      LeavesMore(s, SkipSpace(s[1..]));
      SpacesMore(s[0], Eaten(s[1..], SkipSpace(s[1..])));
    } else {
      NothingEaten(s);
    }
  }

  lemma {:induction false} NothingEaten(s: string)
    ensures Leaves(s, s) && Eaten(s, s) == "" && s == "" + s
  {
  }

  lemma {:induction false} LeavesMore(s: string, rest: string)
    requires s != "" && Leaves(s[1..], rest)
    ensures Leaves(s, rest) && Eaten(s, rest) == [s[0]] + Eaten(s[1..], rest) && s == Eaten(s, rest) + rest
  {
  }

  lemma {:induction false} SpacesMore(c: char, g: string)
    requires IsSpace(c) && IsGap(g)
    ensures IsGap([c] + g)
  {
  }

  // ---------- every text of the grammar is accepted ----------

  /** A denoting text does not begin with white space or a bracket that closes. */
  lemma {:induction false} DenotesStart(t: string, v: Value)
    requires Denotes(t, v)
    ensures t != "" && !IsSpace(t[0]) && t[0] != ']' && t[0] != '}'
  {
    hide ItemsText, MembersText, Spells, FromPairs;
    match v
    case Num(n) => IntegerStart(t, n);
    case Float(_) => FloatStart(t);
    case _ =>
  }

  lemma {:induction false} IntegerStart(t: string, n: int)
    requires IntegerText(t, n)
    ensures t != "" && (t[0] == '-' || IsDigit(t[0]))
  {
    NatTextIsDecimal(if n < 0 then -n else n);
  }

  lemma {:induction false} FloatStart(t: string)
    requires FloatText(t)
    ensures t != "" && (t[0] == '-' || t[0] == 'N' || t[0] == 'I' || IsDigit(t[0]))
  {
    hide FloatParts;
    if t != "NaN" && t != "Infinity" && t != "-Infinity" {
      var sign, whole, fraction, exponent :| FloatParts(t, sign, whole, fraction, exponent);
      PartsStart(t, sign, whole, fraction, exponent);
    }
  }

  lemma {:induction false} PartsStart(t: string, sign: string, whole: string, fraction: string, exponent: string)
    requires FloatParts(t, sign, whole, fraction, exponent)
    ensures t != "" && (t[0] == '-' || IsDigit(t[0]))
  {
    hide FractionText, ExponentText;
    assert IsDigit(whole[0]);
    if sign == "" { assert t[0] == whole[0]; }
  }

  /** A text of the grammar is read to its end, as what it denotes. */
  lemma {:induction false} Accepts(t: string, v: Value)
    requires Denotes(t, v)
    ensures Parse(t) == Ok(v, "")
    decreases |t|, 1
  {
    match v
    case Null => ParseNamed();
    case Bool(_) => ParseNamed();
    case Num(n) => ParseInteger(t, n);
    case Float(_) => ParseFloat(t);
    case Str(s) => AcceptsString(t, s);
    case Arr(items) => AcceptsArray(t, items);
    case Obj(fields) => AcceptsObject(t, fields);
  }

  lemma {:induction false} AcceptsString(t: string, s: string)
    requires Denotes(t, Str(s))
    ensures Parse(t) == Ok(Str(s), "")
  {
    hide ScanString, Spells;
    ScanSpelledString(t[1..|t| - 1], s, "");
    assert "\"" + "" == "\"" && t[1..] == t[1..|t| - 1] + "\"";
  }

  lemma {:induction false} AcceptsArray(t: string, items: seq<Value>)
    requires Denotes(t, Arr(items))
    ensures Parse(t) == Ok(Arr(items), "")
    decreases |t|, 0
  {
    hide ItemsText, ParseItems, SkipSpace;
    var inside := Inside(t);
    assert t[0] == '[' && t[1..] == inside + "]";
    if items == [] {
      SkipsGap(inside, "]");
    } else {
      AcceptsItems(inside, items, "");
      assert "]" + "" == "]";
    }
  }

  /** `rest` is what follows the closing bracket. */
  lemma {:induction false} AcceptsItems(t: string, items: seq<Value>, rest: string)
    requires ItemsText(t, items)
    ensures var s := SkipSpace(t + ("]" + rest)); s != "" && s[0] != ']' && ParseItems(s) == Ok(items, rest)
    decreases |t|, 2
  {
    hide *;
    var item, more := FirstItem(t, items);
    DenotesStart(item.body, items[0]);
    Accepts(item.body, items[0]);
    if |items| == 1 {
      Reads(item, "]" + rest, items[0]);
      SpreadItem(t, item, "", "]" + rest);
      ParsesLast(item.body + (item.after + ("]" + rest)), items[0], item.after, rest);
      assert items == [items[0]];
    } else {
      AcceptsItems(more, items[1..], rest);
      var tail := "," + (more + ("]" + rest));
      Reads(item, tail, items[0]);
      SpreadItem(t, item, "," + more, "]" + rest);
      Associative(",", more, "]" + rest);
      ParsesNext(item.body + (item.after + tail), items[0], item.after, more + ("]" + rest));
      assert [items[0]] + items[1..] == items;
    }
  }

  lemma {:induction false} FirstItem(t: string, items: seq<Value>) returns (item: Item, more: string)
    requires ItemsText(t, items)
    ensures items != [] && t == item.Text() + (if |items| == 1 then "" else "," + more)
    ensures IsGap(item.before) && IsGap(item.after) && |item.body| <= |t| && Denotes(item.body, items[0])
    ensures |items| > 1 ==> |more| < |t| && ItemsText(more, items[1..])
  {
    hide Denotes, IsGap;
    item, more :| ItemsCut(t, items, item, more);
  }

  /** Reading an item in front of a token. */
  lemma {:induction false} Reads(item: Item, tail: string, v: Value)
    requires IsGap(item.before) && IsGap(item.after) && Parse(item.body) == Ok(v, "")
    requires item.body != "" && !IsSpace(item.body[0])
    requires tail != "" && (tail[0] == ',' || tail[0] == ']' || tail[0] == '}')
    ensures var s := item.body + (item.after + tail);
            && SkipSpace(item.before + s) == s && s[0] == item.body[0]
            && Parse(s) == Ok(v, item.after + tail) && SkipSpace(item.after + tail) == tail
  {
    hide Parse, SkipSpace;
    var s := item.body + (item.after + tail);
    assert s[0] == item.body[0];
    SkipsGap(item.before, s);
    SkipsGap(item.after, tail);
    assert Breaks(item.after + tail) by {
      assert (item.after + tail)[0] == if item.after == "" then tail[0] else item.after[0];
    }
    ParseAppend(item.body, item.after + tail);
    assert "" + (item.after + tail) == item.after + tail;
  }

  lemma {:induction false} SpreadItem(t: string, item: Item, more: string, rest: string)
    requires t == item.Text() + more
    ensures t + rest == item.before + (item.body + (item.after + (more + rest)))
    ensures more == "" ==> more + rest == rest
  {
    Associative(item.Text(), more, rest);
    Associative(item.before, item.body + item.after, more + rest);
    Associative(item.body, item.after, more + rest);
  }

  lemma {:induction false} ParsesLast(s: string, v: Value, gap: string, rest: string)
    requires Parse(s) == Ok(v, gap + ("]" + rest)) && SkipSpace(gap + ("]" + rest)) == "]" + rest
    ensures ParseItems(s) == Ok([v], rest)
  {
    hide Parse, SkipSpace;
    assert ("]" + rest)[1..] == rest;
  }

  lemma {:induction false} ParsesNext(s: string, v: Value, gap: string, more: string)
    requires Parse(s) == Ok(v, gap + ("," + more)) && SkipSpace(gap + ("," + more)) == "," + more
    ensures ParseItems(s) ==
            match ParseItems(SkipSpace(more)) { case Bad => Bad case Ok(vs, rest) => Ok([v] + vs, rest) }
  {
    hide Parse, SkipSpace;
    assert ("," + more)[1..] == more;
  }

  lemma {:induction false} AcceptsObject(t: string, fields: seq<Field>)
    requires Denotes(t, Obj(fields))
    ensures Parse(t) == Ok(Obj(fields), "")
    decreases |t|, 0
  {
    hide MembersText, ParseFields, SkipSpace, FromPairs;
    var inside := Inside(t);
    assert t[0] == '{' && t[1..] == inside + "}";
    if fields == [] {
      SkipsGap(inside, "}");
    } else {
      var pairs :| MembersText(inside, pairs) && fields == FromPairs(pairs);
      AcceptsMembers(inside, pairs, "");
      assert "}" + "" == "}";
    }
  }

  lemma {:induction false} AcceptsMembers(t: string, pairs: seq<Field>, rest: string)
    requires MembersText(t, pairs)
    ensures var s := SkipSpace(t + ("}" + rest)); s != "" && s[0] != '}' && ParseFields(s) == Ok(pairs, rest)
    decreases |t|, 2
  {
    hide *;
    var member, more := FirstMember(t, pairs);
    var item := member.item;
    DenotesStart(item.body, pairs[0].value);
    Accepts(item.body, pairs[0].value);
    if |pairs| == 1 {
      Reads(item, "}" + rest, pairs[0].value);
      SpreadMember(t, member, "", "}" + rest);
      ReadsKey(member, pairs[0].key, item.body + (item.after + ("}" + rest)));
      ParsesLastMember(pairs[0].key, item.body + (item.after + ("}" + rest)), pairs[0].value, item.after, rest);
      assert pairs == [pairs[0]];
    } else {
      AcceptsMembers(more, pairs[1..], rest);
      var tail := "," + (more + ("}" + rest));
      Reads(item, tail, pairs[0].value);
      SpreadMember(t, member, "," + more, "}" + rest);
      Associative(",", more, "}" + rest);
      ReadsKey(member, pairs[0].key, item.body + (item.after + tail));
      ParsesNextMember(pairs[0].key, item.body + (item.after + tail), pairs[0].value, item.after, more + ("}" + rest));
      assert [pairs[0]] + pairs[1..] == pairs;
    }
  }

  lemma {:induction false} FirstMember(t: string, pairs: seq<Field>) returns (member: Member, more: string)
    requires MembersText(t, pairs)
    ensures pairs != [] && t == member.Text() + (if |pairs| == 1 then "" else "," + more)
    ensures IsGap(member.before) && IsGap(member.gap) && IsGap(member.item.before) && IsGap(member.item.after)
    ensures Spells(member.key, pairs[0].key) && |member.item.body| <= |t|
    ensures Denotes(member.item.body, pairs[0].value)
    ensures |pairs| > 1 ==> |more| < |t| && MembersText(more, pairs[1..])
  {
    hide Denotes, IsGap, Spells;
    member, more :| MembersCut(t, pairs, member, more);
  }

  /** A member in front of a token: `value` is the text of the value and what follows it. */
  lemma {:induction false} ReadsKey(member: Member, key: string, value: string)
    requires IsGap(member.before) && IsGap(member.gap) && Spells(member.key, key)
    requires value != "" && SkipSpace(member.item.before + value) == value
    ensures var s := "\"" + (member.key + ("\"" + (member.gap + (":" + (member.item.before + value)))));
            && SkipSpace(member.before + s) == s && ParseFields(s) == ParseMember(key, value)
  {
    hide SkipSpace, ScanString, Spells, ParseMember;
    var colon := ":" + (member.item.before + value);
    var s := "\"" + (member.key + ("\"" + (member.gap + colon)));
    SkipsGap(member.before, s);
    ScanSpelledString(member.key, key, member.gap + colon);
    assert s[1..] == member.key + ("\"" + (member.gap + colon));
    SkipsGap(member.gap, colon);
    assert colon[1..] == member.item.before + value;
  }

  lemma {:induction false} SpreadMember(t: string, member: Member, more: string, rest: string)
    requires t == member.Text() + more
    ensures var item := member.item;
            t + rest == member.before + ("\"" + (member.key + ("\"" + (member.gap + (":" + (item.before + (item.body +
              (item.after + (more + rest)))))))))
    ensures more == "" ==> more + rest == rest
  {
    var item := member.item;
    Associative(member.Text(), more, rest);
    var tail := more + rest;
    SpreadItem(item.Text() + more, item, more, rest);
    Associative(item.Text(), more, rest);
    var m5 := ":" + item.Text();
    var m4 := member.gap + m5;
    var m3 := "\"" + m4;
    var m2 := member.key + m3;
    var m1 := "\"" + m2;
    Associative(member.before, m1, tail);
    Associative("\"", m2, tail);
    Associative(member.key, m3, tail);
    Associative("\"", m4, tail);
    Associative(member.gap, m5, tail);
    Associative(":", item.Text(), tail);
  }

  lemma {:induction false} ParsesLastMember(key: string, s: string, v: Value, gap: string, rest: string)
    requires Parse(s) == Ok(v, gap + ("}" + rest)) && SkipSpace(gap + ("}" + rest)) == "}" + rest
    ensures ParseMember(key, s) == Ok([Field(key, v)], rest)
  {
    hide Parse, SkipSpace;
    assert ("}" + rest)[1..] == rest;
  }

  lemma {:induction false} ParsesNextMember(key: string, s: string, v: Value, gap: string, more: string)
    requires Parse(s) == Ok(v, gap + ("," + more)) && SkipSpace(gap + ("," + more)) == "," + more
    ensures ParseMember(key, s) ==
            match ParseFields(SkipSpace(more)) { case Bad => Bad case Ok(fs, rest) => Ok([Field(key, v)] + fs, rest) }
  {
    hide Parse, SkipSpace;
    assert ("," + more)[1..] == more;
  }

  // ---------- and nothing else is ----------

  /** What was read is a text of the grammar, and denotes the value read. */
  lemma {:induction false} Denoted(s: string)
    requires Parse(s).Ok?
    ensures var r := Parse(s); Leaves(s, r.rest) && Denotes(Eaten(s, r.rest), r.value)
    decreases |s|, 1
  {
    hide *;
    ParsedSome(s);
    if s[0] == '"' {
      DenotedString(s);
    } else if s[0] == '[' {
      DenotedArray(s);
    } else if s[0] == '{' {
      DenotedObject(s);
    } else {
      DenotedOther(s);
    }
  }

  lemma {:induction false} ParsedSome(s: string)
    requires Parse(s).Ok?
    ensures s != ""
  {
  }

  lemma {:induction false} DenotedString(s: string)
    requires Parse(s).Ok? && s[0] == '"'
    ensures var r := Parse(s); Leaves(s, r.rest) && Denotes(Eaten(s, r.rest), r.value)
  {
    hide ScanString, Spells, Leaves, Eaten;
    SpelledScanString(s[1..]);
    var r := ScanString(s[1..]);
    assert Parse(s) == Ok(Str(r.value), r.rest);
    QuotedIs(s, s[1..][..|s| - 1 - |r.rest| - 1], r.rest);
  }

  lemma {:induction false} QuotedIs(s: string, text: string, rest: string)
    requires s != "" && s[0] == '"' && s[1..] == text + ("\"" + rest)
    ensures Leaves(s, rest)
    ensures var t := Eaten(s, rest); |t| >= 2 && t == "\"" + (t[1..|t| - 1] + "\"") && t[1..|t| - 1] == text
  {
    var t := "\"" + (text + "\"");
    assert s == t + rest;
    assert s[|t|..] == rest && s[..|t|] == t && t[1..|t| - 1] == text;
  }

  lemma {:induction false} DenotedOther(s: string)
    requires Parse(s).Ok? && s[0] != '"' && s[0] != '[' && s[0] != '{'
    ensures var r := Parse(s); Leaves(s, r.rest) && Denotes(Eaten(s, r.rest), r.value)
  {
    hide ScanNumber, FloatParts, IntText, FromPairs;
    var r := Parse(s);
    if s[0] == 'n' { DenotedWord(s, "null", Null); }
    else if s[0] == 't' { DenotedWord(s, "true", Bool(true)); }
    else if s[0] == 'f' { DenotedWord(s, "false", Bool(false)); }
    else if s[0] == 'N' { DenotedWord(s, "NaN", Float("NaN")); }
    else if s[0] == 'I' { DenotedWord(s, "Infinity", Float("Infinity")); }
    else if "-Infinity" <= s {
      assert s == "-Infinity" + s[9..] && Eaten(s, r.rest) == "-Infinity";
    } else {
      NumberText(s);
    }
  }

  lemma {:induction false} DenotedWord(s: string, word: string, v: Value)
    requires word != "" && Word(s, word, v).Ok?
    ensures var r := Word(s, word, v); Leaves(s, r.rest) && Eaten(s, r.rest) == word && r.value == v
  {
  }

  lemma {:induction false} DenotedArray(s: string)
    requires Parse(s).Ok? && s[0] == '['
    ensures var r := Parse(s); Leaves(s, r.rest) && Denotes(Eaten(s, r.rest), r.value)
    decreases |s|, 0
  {
    hide SkipSpace, ParseItems, ItemsText, Leaves, Eaten, Enclosed, Inside;
    var body := SkipSpace(s[1..]);
    var rest := Parse(s).rest;
    if body != "" && body[0] == ']' {
      Skipped(s[1..]);
      EnclosedEmpty(s, "[", "]", body);
    } else {
      var inside := DenotedItems(s[1..]);
      EnclosedIs(s, "[", "]", inside, rest);
      ItemsSome(inside, Parse(s).value.items);
    }
  }

  lemma {:induction false} EnclosedEmpty(s: string, open: string, close: string, body: string)
    requires |open| == |close| == 1 && s != "" && [s[0]] == open
    requires Leaves(s[1..], body) && IsGap(Eaten(s[1..], body)) && body != "" && [body[0]] == close
    ensures Leaves(s, body[1..])
    ensures Enclosed(Eaten(s, body[1..]), open, close) && IsGap(Inside(Eaten(s, body[1..])))
  {
    hide IsGap;
    LeavesAll(s[1..], body);
    assert body == close + body[1..];
    EnclosedIs(s, open, close, Eaten(s[1..], body), body[1..]);
  }

  lemma {:induction false} ItemsSome(t: string, items: seq<Value>)
    requires ItemsText(t, items)
    ensures items != []
  {
  }

  lemma {:induction false} EnclosedIs(s: string, open: string, close: string, inside: string, rest: string)
    requires |open| == |close| == 1 && s != "" && [s[0]] == open && s[1..] == inside + (close + rest)
    ensures Leaves(s, rest) && Enclosed(Eaten(s, rest), open, close) && Inside(Eaten(s, rest)) == inside
  {
    var t := open + (inside + close);
    assert s == open + s[1..];
    assert s == t + rest;
    assert Eaten(s, rest) == t;
    assert t[1..|t| - 1] == inside;
  }

  /** One turn of the loop over items. */
  lemma {:induction false} ItemsRead(s: string)
    requires ParseItems(s).Ok?
    ensures Parse(s).Ok?
    ensures var v, next := Parse(s).value, SkipSpace(Parse(s).rest);
            && next != "" && (next[0] == ']' || next[0] == ',')
            && (next[0] == ']' ==> ParseItems(s) == Ok([v], next[1..]) && next == "" + ("]" + next[1..]))
            && (next[0] == ',' ==>
                  && ParseItems(SkipSpace(next[1..])).Ok?
                  && var others := ParseItems(SkipSpace(next[1..]));
                  && ParseItems(s) == Ok([v] + others.value, others.rest) && next == "," + next[1..])
  {
    hide Parse, SkipSpace;
  }

  /** Between the brackets; `x` is everything behind the opening one. */
  lemma {:induction false} DenotedItems(x: string) returns (t: string)
    requires ParseItems(SkipSpace(x)).Ok?
    ensures var r := ParseItems(SkipSpace(x)); x == t + ("]" + r.rest) && ItemsText(t, r.value)
    decreases |x|, 2
  {
    hide *;
    var s := SkipSpace(x);
    Skipped(x);
    ItemsRead(s);
    var r, first := ParseItems(s), Parse(s);
    Denoted(s);
    LeavesAll(s, first.rest);
    var next := SkipSpace(first.rest);
    Skipped(first.rest);
    var item := Item(Eaten(x, s), Eaten(s, first.rest), Eaten(first.rest, next));
    JoinItem(x, s, first.rest, next, item);
    var more := "";
    if next[0] == ',' {
      more := DenotedItems(next[1..]);
      ItemsSome(more, ParseItems(SkipSpace(next[1..])).value);
    }
    assert |r.value| > 1 ==> r.value[1..] == ParseItems(SkipSpace(next[1..])).value;
    var tail := if |r.value| == 1 then "" else "," + more;
    t := item.Text() + tail;
    Associative(item.Text(), tail, "]" + r.rest);
    Associative(",", more, "]" + r.rest);
    ItemsMore(t, r.value, item, more);
  }

  lemma {:induction false} ItemsMore(t: string, items: seq<Value>, item: Item, more: string)
    requires items != [] && t == item.Text() + (if |items| == 1 then "" else "," + more)
    requires IsGap(item.before) && IsGap(item.after) && Denotes(item.body, items[0])
    requires |items| > 1 ==> ItemsText(more, items[1..])
    ensures ItemsText(t, items)
  {
    hide Denotes, IsGap;
    assert ItemsCut(t, items, item, more);
  }

  lemma {:induction false} JoinItem(x: string, s: string, after: string, next: string, item: Item)
    requires x == item.before + s && s == item.body + after && after == item.after + next
    ensures x == item.Text() + next
  {
    Associative(item.body, item.after, next);
    Associative(item.before, item.body + item.after, next);
  }

  lemma {:induction false} DenotedObject(s: string)
    requires Parse(s).Ok? && s[0] == '{'
    ensures var r := Parse(s); Leaves(s, r.rest) && Denotes(Eaten(s, r.rest), r.value)
    decreases |s|, 0
  {
    hide SkipSpace, ParseFields, MembersText, FromPairs, Leaves, Eaten, Enclosed, Inside;
    var body := SkipSpace(s[1..]);
    var rest := Parse(s).rest;
    if body != "" && body[0] == '}' {
      Skipped(s[1..]);
      EnclosedEmpty(s, "{", "}", body);
    } else {
      var inside := DenotedMembers(s[1..]);
      EnclosedIs(s, "{", "}", inside, rest);
      MembersSome(inside, ParseFields(body).value);
    }
  }

  lemma {:induction false} MembersSome(t: string, pairs: seq<Field>)
    requires MembersText(t, pairs)
    ensures pairs != [] && FromPairs(pairs) != []
  {
  }

  /** The key of a member and its colon. */
  lemma {:induction false} FieldsRead(s: string)
    requires ParseFields(s).Ok?
    ensures s != "" && s[0] == '"' && ScanString(s[1..]).Ok?
    ensures var key := ScanString(s[1..]);
            var colon := SkipSpace(key.rest);
            colon != "" && colon[0] == ':' && ParseFields(s) == ParseMember(key.value, SkipSpace(colon[1..]))
  {
    hide ScanString, SkipSpace, ParseMember;
  }

  /** One turn of the loop over members. */
  lemma {:induction false} MemberRead(key: string, s: string)
    requires ParseMember(key, s).Ok?
    ensures Parse(s).Ok?
    ensures var v, next := Parse(s).value, SkipSpace(Parse(s).rest);
            && next != "" && (next[0] == '}' || next[0] == ',')
            && (next[0] == '}' ==>
                  && ParseMember(key, s) == Ok([Field(key, v)], next[1..])
                  && next == "" + ("}" + next[1..]))
            && (next[0] == ',' ==>
                  && ParseFields(SkipSpace(next[1..])).Ok?
                  && var others := ParseFields(SkipSpace(next[1..]));
                  && ParseMember(key, s) == Ok([Field(key, v)] + others.value, others.rest)
                  && next == "," + next[1..])
  {
    hide Parse, SkipSpace;
  }

  /** Between the braces. */
  lemma {:induction false} DenotedMembers(x: string) returns (t: string)
    requires ParseFields(SkipSpace(x)).Ok?
    ensures var r := ParseFields(SkipSpace(x)); x == t + ("}" + r.rest) && MembersText(t, r.value)
    decreases |x|, 3
  {
    hide *;
    var s := SkipSpace(x);
    Skipped(x);
    FieldsRead(s);
    SpelledScanString(s[1..]);
    var key := ScanString(s[1..]);
    var text := s[1..][..|s| - 1 - |key.rest| - 1];
    var colon := SkipSpace(key.rest);
    Skipped(key.rest);
    var value := SkipSpace(colon[1..]);
    Skipped(colon[1..]);
    var body, after, more := DenotedMember(key.value, value);
    var member := Member(Eaten(x, s), text, Eaten(key.rest, colon), Item(Eaten(colon[1..], value), body, after));
    var r := ParseFields(s);
    t := member.Text() + if |r.value| == 1 then "" else "," + more;
    JoinKey(x, s, key.rest, colon, value, member, text);
    KeyThenValue(member, t, more, value, "}" + r.rest, |r.value| == 1);
    MembersMore(t, r.value, member, more);
  }

  /** From the value of a member on. */
  lemma {:induction false} DenotedMember(key: string, s: string) returns (body: string, after: string, more: string)
    requires ParseMember(key, s).Ok?
    ensures var r := ParseMember(key, s);
            && r.value != [] && r.value[0].key == key
            && s == body + (after + ((if |r.value| == 1 then "" else "," + more) + ("}" + r.rest)))
            && IsGap(after) && Denotes(body, r.value[0].value)
            && (|r.value| > 1 ==> MembersText(more, r.value[1..]))
    decreases |s|, 2
  {
    hide *;
    MemberRead(key, s);
    var r, first := ParseMember(key, s), Parse(s);
    Denoted(s);
    LeavesAll(s, first.rest);
    var next := SkipSpace(first.rest);
    Skipped(first.rest);
    body, after, more := Eaten(s, first.rest), Eaten(first.rest, next), "";
    if next[0] == ',' {
      more := DenotedMembers(next[1..]);
      MembersSome(more, ParseFields(SkipSpace(next[1..])).value);
    }
    assert |r.value| > 1 ==> r.value[1..] == ParseFields(SkipSpace(next[1..])).value;
    Associative(",", more, "}" + r.rest);
  }

  /** The pieces up to the value of a member. */
  lemma {:induction false} JoinKey(x: string, s: string, afterKey: string, colon: string, value: string, member: Member,
                                   text: string)
    requires x == member.before + s && s != "" && s[0] == '"' && s[1..] == text + ("\"" + afterKey)
    requires afterKey == member.gap + colon && colon != "" && colon[0] == ':'
    requires colon[1..] == member.item.before + value && member.key == text
    ensures x == member.before + ("\"" + (member.key + ("\"" + (member.gap + (":" + (member.item.before + value))))))
  {
    assert s == "\"" + s[1..] && colon == ":" + colon[1..];
  }

  lemma {:induction false} KeyThenValue(member: Member, t: string, more: string, value: string, tail: string,
                                        last: bool)
    requires t == member.Text() + if last then "" else "," + more
    requires value == member.item.body + (member.item.after + ((if last then "" else "," + more) + tail))
    ensures member.before + ("\"" + (member.key + ("\"" + (member.gap + (":" + (member.item.before + value)))))) ==
            t + tail
  {
    hide *;
    SpreadMember(t, member, if last then "" else "," + more, tail);
  }

  lemma {:induction false} MembersMore(t: string, pairs: seq<Field>, member: Member, more: string)
    requires pairs != [] && t == member.Text() + if |pairs| == 1 then "" else "," + more
    requires IsGap(member.before) && IsGap(member.gap) && IsGap(member.item.before) && IsGap(member.item.after)
    requires Spells(member.key, pairs[0].key) && Denotes(member.item.body, pairs[0].value)
    requires |pairs| > 1 ==> MembersText(more, pairs[1..])
    ensures MembersText(t, pairs)
  {
    hide Denotes, IsGap, Spells;
    assert MembersCut(t, pairs, member, more);
  }

  // ---------- the decoder is the grammar ----------

  /** A document: a text of the grammar with white space around it. */
  ghost predicate IsDocument(s: string, item: Item, v: Value) {
    s == item.Text() && IsGap(item.before) && IsGap(item.after) && Denotes(item.body, v)
  }

  /** `json.loads` yields a value exactly when the text is a document that denotes it. */
  lemma {:induction false} LoadsIff(s: string, v: Value)
    ensures Loads(s) == Some(v) <==> exists item :: IsDocument(s, item, v)
  {
    hide IsDocument, Loads;
    if Loads(s) == Some(v) {
      var item := LoadedIsDocument(s, v);
    }
    if item :| IsDocument(s, item, v) {
      DocumentLoads(s, item, v);
    }
  }

  lemma {:induction false} DocumentLoads(s: string, item: Item, v: Value)
    requires IsDocument(s, item, v)
    ensures Loads(s) == Some(v)
  {
    hide Parse, SkipSpace, Denotes, IsGap;
    Accepts(item.body, v);
    DenotesStart(item.body, v);
    SkipsGap(item.before, item.body + item.after);
    assert (item.body + item.after)[0] == item.body[0];
    assert item.after + "" == item.after;
    SkipsGap(item.after, "");
    if item.after == "" {
      assert item.body + item.after == item.body;
      SkipNone();
    } else {
      GapBreaks(item.after);
      ParseAppend(item.body, item.after);
      assert "" + item.after == item.after;
    }
  }

  lemma {:induction false} SkipNone()
    ensures SkipSpace("") == ""
  {
  }

  lemma {:induction false} GapBreaks(g: string)
    requires IsGap(g) && g != ""
    ensures Breaks(g)
  {
  }

  lemma {:induction false} LoadedIsDocument(s: string, v: Value) returns (item: Item)
    requires Loads(s) == Some(v)
    ensures IsDocument(s, item, v)
  {
    hide Parse, SkipSpace, Denotes, IsGap;
    var body := SkipSpace(s);
    Skipped(s);
    Denoted(body);
    var rest := Parse(body).rest;
    LeavesAll(body, rest);
    Skipped(rest);
    item := Item(Eaten(s, body), Eaten(body, rest), rest);
    assert Eaten(rest, "") == rest;
  }

  // ---------- dicts with repeated keys ----------

  /** The last pair with the key. */
  predicate LastWith(pairs: seq<Field>, key: string, i: nat) {
    i < |pairs| && pairs[i].key == key && forall j :: i < j < |pairs| ==> pairs[j].key != key
  }

  lemma {:induction false} AssignFind(fields: seq<Field>, key: string, v: Value, k: string)
    ensures Find(Assign(fields, key, v), k) == if k == key then Some(v) else Find(fields, k)
  {
    if fields != [] {
      AssignFind(fields[1..], key, v, k);
      if fields[0].key != key {
        var rest := Assign(fields[1..], key, v);
        assert ([fields[0]] + rest)[0] == fields[0] && ([fields[0]] + rest)[1..] == rest;
      } else {
        assert ([Field(key, v)] + fields[1..])[1..] == fields[1..];
      }
    } else {
      assert [Field(key, v)][1..] == [];
    }
  }

  /** Under each key a dict holds what the last pair with the key has. */
  lemma {:induction false} FromPairsFind(pairs: seq<Field>, key: string)
    ensures forall i: nat :: LastWith(pairs, key, i) ==> Find(FromPairs(pairs), key) == Some(pairs[i].value)
    ensures Find(FromPairs(pairs), key) == None <==> forall i :: 0 <= i < |pairs| ==> pairs[i].key != key
  {
    hide Find, Assign;
    if pairs == [] {
      FindNothing(key);
    } else {
      var init, last := pairs[..|pairs| - 1], pairs[|pairs| - 1];
      FromPairsFind(init, key);
      AssignFind(FromPairs(init), last.key, last.value, key);
      assert forall i: nat :: LastWith(pairs, key, i) && i < |init| ==> LastWith(init, key, i);
    }
  }

  lemma {:induction false} FindNothing(key: string)
    ensures Find([], key) == None
  {
  }

  /** The first pair with the key, or the number of pairs. */
  function FirstWith(pairs: seq<Field>, key: string): nat {
    if pairs == [] || pairs[0].key == key then 0 else 1 + FirstWith(pairs[1..], key)
  }

  lemma {:induction false} FirstWithMore(pairs: seq<Field>, last: Field, key: string)
    ensures FirstWith(pairs, key) <= |pairs|
    ensures FirstWith(pairs + [last], key) ==
            if FirstWith(pairs, key) < |pairs| then FirstWith(pairs, key)
            else if last.key == key then |pairs| else |pairs| + 1
  {
    if pairs == [] {
      assert [last][1..] == [] && pairs + [last] == [last];
    } else {
      assert (pairs + [last])[1..] == pairs[1..] + [last];
      FirstWithMore(pairs[1..], last, key);
    }
  }

  lemma {:induction false} AssignKeys(fields: seq<Field>, key: string, v: Value)
    ensures var r := Assign(fields, key, v);
            && |fields| <= |r| <= |fields| + 1
            && (forall i :: 0 <= i < |fields| ==> r[i].key == fields[i].key)
            && (|r| == |fields| + 1 ==>
                  r[|fields|].key == key && forall i :: 0 <= i < |fields| ==> fields[i].key != key)
  {
    if fields != [] && fields[0].key != key {
      AssignKeys(fields[1..], key, v);
      assert forall i :: 0 < i < |fields| ==> fields[i] == fields[1..][i - 1];
    }
  }

  /** A dict keeps its keys in the order in which they first came. */
  lemma {:induction false} FromPairsOrder(pairs: seq<Field>)
    ensures forall i :: 0 <= i < |FromPairs(pairs)| ==> FirstWith(pairs, FromPairs(pairs)[i].key) < |pairs|
    ensures forall i, j :: 0 <= i < j < |FromPairs(pairs)| ==>
              FirstWith(pairs, FromPairs(pairs)[i].key) < FirstWith(pairs, FromPairs(pairs)[j].key)
  {
    hide Assign, FirstWith;
    if pairs != [] {
      var init, last := pairs[..|pairs| - 1], pairs[|pairs| - 1];
      assert init + [last] == pairs;
      FromPairsOrder(init);
      var before, fields := FromPairs(init), FromPairs(pairs);
      assert fields == Assign(before, last.key, last.value);
      AssignKeys(before, last.key, last.value);
      forall i | 0 <= i < |fields|
        ensures FirstWith(pairs, fields[i].key) == if i < |before| then FirstWith(init, before[i].key) else |init|
      {
        FirstWithMore(init, last, fields[i].key);
        if i < |before| {
          assert fields[i].key == before[i].key && FirstWith(init, before[i].key) < |init|;
        } else {
          NotThere(init, last.key);
        }
      }
    }
  }

  lemma {:induction false} NotThere(pairs: seq<Field>, key: string)
    requires forall i :: 0 <= i < |FromPairs(pairs)| ==> FromPairs(pairs)[i].key != key
    ensures FirstWith(pairs, key) == |pairs|
  {
    hide FromPairs, Find;
    FindNoKey(FromPairs(pairs), key);
    FromPairsFind(pairs, key);
    FirstNowhere(pairs, key);
  }

  lemma {:induction false} FindNoKey(fields: seq<Field>, key: string)
    requires forall i :: 0 <= i < |fields| ==> fields[i].key != key
    ensures Find(fields, key) == None
  {
    if fields != [] { FindNoKey(fields[1..], key); }
  }

  lemma {:induction false} FirstNowhere(pairs: seq<Field>, key: string)
    requires forall i :: 0 <= i < |pairs| ==> pairs[i].key != key
    ensures FirstWith(pairs, key) == |pairs|
  {
    if pairs != [] { FirstNowhere(pairs[1..], key); }
  }

  // ---------- compact text is shortest ----------

  lemma {:induction false} SpellsCharLength(ascii: bool, c: char, t: string)
    requires SpellsChar(t, c) && (ascii ==> Printable(t))
    ensures |EscapeChar(ascii, c)| <= |t|
  {
    hide ShortEscape;
    EscapeLength(ascii, c);
    assert Itself(t, c) ==> t[0] == c;
    if ShortEscape(t, c) { ShortIsOwn(ascii, c, t); }
  }

  lemma {:induction false} EscapeLength(ascii: bool, c: char)
    ensures |EscapeChar(ascii, c)| <= (if c as int < 0x10000 then 6 else 12)
    ensures c >= ' ' && c != '"' && c != '\\' && (ascii ==> c <= '~') ==> |EscapeChar(ascii, c)| == 1
  {
    hide Hex4;
  }

  lemma {:induction false} SpellsLength(ascii: bool, text: string, s: string)
    requires Spells(text, s) && (ascii ==> Printable(text))
    ensures |Escape(ascii, s)| <= |text|
    decreases |s|
  {
    hide SpellsChar, EscapeChar;
    if s != "" {
      var k: nat :| SpellsFrom(text, s, k);
      SpellsCharLength(ascii, s[0], text[..k]);
      SpellsLength(ascii, text[k..], s[1..]);
    }
  }

  /** The length of a printed member and the comma or brace behind it. */
  function MemberLength(ascii: bool, f: Field): nat {
    |Quote(ascii, f.key)| + 1 + |Print(Style(ascii, false), f.value)| + 1
  }

  function FieldsLength(ascii: bool, fields: seq<Field>): nat {
    if fields == [] then 0 else MemberLength(ascii, fields[0]) + FieldsLength(ascii, fields[1..])
  }

  lemma {:induction false} PrintFieldsLength(ascii: bool, fields: seq<Field>)
    requires fields != []
    ensures |PrintFields(Style(ascii, false), fields)| == FieldsLength(ascii, fields)
  {
    hide Quote, Print;
    if |fields| > 1 { PrintFieldsLength(ascii, fields[1..]); }
  }

  lemma {:induction false} AssignLength(ascii: bool, fields: seq<Field>, key: string, v: Value)
    ensures FieldsLength(ascii, Assign(fields, key, v)) <= FieldsLength(ascii, fields)
            + MemberLength(ascii, Field(key, v))
  {
    hide MemberLength;
    if fields == [] {
      assert [Field(key, v)][1..] == [];
    } else if fields[0].key == key {
      assert ([Field(key, v)] + fields[1..])[1..] == fields[1..];
    } else {
      AssignLength(ascii, fields[1..], key, v);
      var rest := Assign(fields[1..], key, v);
      assert ([fields[0]] + rest)[0] == fields[0] && ([fields[0]] + rest)[1..] == rest;
    }
  }

  lemma {:induction false} FieldsLengthMore(ascii: bool, fields: seq<Field>, last: Field)
    ensures FieldsLength(ascii, fields + [last]) == FieldsLength(ascii, fields) + MemberLength(ascii, last)
  {
    hide MemberLength;
    if fields == [] {
      assert [last][1..] == [] && fields + [last] == [last];
    } else {
      assert (fields + [last])[1..] == fields[1..] + [last];
      FieldsLengthMore(ascii, fields[1..], last);
    }
  }

  lemma {:induction false} FromPairsLength(ascii: bool, pairs: seq<Field>)
    ensures FieldsLength(ascii, FromPairs(pairs)) <= FieldsLength(ascii, pairs)
  {
    hide MemberLength, Assign, FieldsLength;
    if pairs != [] {
      var init, last := pairs[..|pairs| - 1], pairs[|pairs| - 1];
      FromPairsLength(ascii, init);
      AssignLength(ascii, FromPairs(init), last.key, last.value);
      FieldsLengthMore(ascii, init, last);
      assert init + [last] == pairs;
    }
  }

  /** Whatever denotes a value - in printable ASCII, where that is asked for - is no shorter than its
    compact printed form. */
  lemma {:induction false} CompactIsShortest(ascii: bool, t: string, v: Value)
    requires Denotes(t, v) && (ascii ==> Printable(t))
    ensures |Print(Style(ascii, false), v)| <= |t|
    decreases |t|, 1
  {
    hide ItemsText, MembersText, Spells, FromPairs, PrintItems, PrintFields, Escape, FloatText, NatText;
    match v
    case Null =>
    case Bool(_) =>
    case Num(n) => if t != IntText(n) { NatTextZero(); }
    case Float(_) =>
    case Str(s) => SpellsLength(ascii, t[1..|t| - 1], s);
    case Arr(items) =>
      if items != [] { ItemsShortest(ascii, Inside(t), items); }
    case Obj(fields) =>
      if fields != [] {
        var pairs :| MembersText(Inside(t), pairs) && fields == FromPairs(pairs);
        MembersShortest(ascii, Inside(t), pairs);
        FromPairsLength(ascii, pairs);
        PrintFieldsLength(ascii, fields);
      }
  }

  lemma {:induction false} ItemsShortest(ascii: bool, t: string, items: seq<Value>)
    requires ItemsText(t, items) && (ascii ==> Printable(t))
    ensures items != [] && |PrintItems(Style(ascii, false), items)| <= |t| + 1
    decreases |t|, 2
  {
    hide Denotes, IsGap, Print, ItemsText;
    var item, more := FirstItem(t, items);
    assert t == item.before + (item.body + (item.after + if |items| == 1 then "" else "," + more));
    if ascii { PrintableParts(item.before, item.body, item.after + if |items| == 1 then "" else "," + more); }
    CompactIsShortest(ascii, item.body, items[0]);
    if |items| > 1 {
      if ascii {
        assert t == (item.before + (item.body + (item.after + ","))) + (more + "");
        PrintableParts(item.before + (item.body + (item.after + ",")), more, "");
      }
      ItemsShortest(ascii, more, items[1..]);
    }
  }

  lemma {:induction false} PrintableParts(a: string, b: string, c: string)
    requires Printable(a + (b + c))
    ensures Printable(b)
  {
    var t := a + (b + c);
    assert forall i :: 0 <= i < |b| ==> t[|a| + i] == b[i];
  }

  lemma {:induction false} PrintableMember(t: string, member: Member, tail: string)
    requires Printable(t)
    requires t == member.before + ("\"" + (member.key + ("\"" + (member.gap + (":" + (member.item.before +
                  (member.item.body + (member.item.after + tail))))))))
    ensures Printable(member.key) && Printable(member.item.body)
  {
    hide Printable;
    var item := member.item;
    var afterKey := "\"" + (member.gap + (":" + (item.before + (item.body + (item.after + tail)))));
    assert t == (member.before + "\"") + (member.key + afterKey);
    PrintableParts(member.before + "\"", member.key, afterKey);
    var front := member.before + ("\"" + (member.key + ("\"" + (member.gap + (":" + item.before)))));
    assert t == front + (item.body + (item.after + tail));
    PrintableParts(front, item.body, item.after + tail);
  }

  lemma {:induction false} MembersShortest(ascii: bool, t: string, pairs: seq<Field>)
    requires MembersText(t, pairs) && (ascii ==> Printable(t))
    ensures FieldsLength(ascii, pairs) <= |t| + 1
    decreases |t|, 2
  {
    hide Denotes, IsGap, Print, MembersText, Spells, Escape;
    var member, more := FirstMember(t, pairs);
    var item := member.item;
    SpreadMember(t, member, if |pairs| == 1 then "" else "," + more, "");
    var tail := (if |pairs| == 1 then "" else "," + more) + "";
    assert t + "" == t;
    if ascii { PrintableMember(t, member, tail); }
    SpellsLength(ascii, member.key, pairs[0].key);
    CompactIsShortest(ascii, item.body, pairs[0].value);
    if |pairs| > 1 {
      if ascii {
        assert t == (t[..|t| - |more|]) + (more + "");
        PrintableParts(t[..|t| - |more|], more, "");
      }
      MembersShortest(ascii, more, pairs[1..]);
    }
  }

  // ---------- values with floats in them ----------

  /** A value a program can hold, where a float is known by the text it was read from: dict keys are
    distinct, and the texts of floats are number texts. */
  ghost predicate Held(v: Value)
    decreases v
  {
    match v
    case Float(lexeme) => FloatText(lexeme)
    case Arr(items) => forall i :: 0 <= i < |items| ==> Held(items[i])
    case Obj(fields) => Distinct(fields) && forall i :: 0 <= i < |fields| ==> Held(fields[i].value)
    case _ => true
  }

  /** What the encoder writes denotes what it was given. */
  lemma {:induction false} PrintDenotes(st: Style, v: Value)
    requires Held(v)
    ensures Denotes(Print(st, v), v)
    decreases v, 1
  {
    hide FloatText, ItemsText, MembersText, PrintItems, PrintFields, Spells, FromPairs, Escape;
    match v
    case Str(s) =>
      EscapeSpellsAll(st.ascii, s);
      var t, text := Print(st, v), Escape(st.ascii, s);
      assert t == "\"" + (text + "\"") && t[1..|t| - 1] == text;
    case Arr(items) =>
      if items != [] {
        var inside := PrintItemsDenotes(st, items);
        assert Print(st, v) == "[" + (inside + "]");
        assert Inside(Print(st, v)) == inside;
      }
    case Obj(fields) =>
      if fields != [] {
        var inside := PrintFieldsDenotes(st, fields);
        assert Print(st, v) == "{" + (inside + "}");
        assert Inside(Print(st, v)) == inside;
        FromDistinctPairs(fields);
      }
    case _ =>
  }

  lemma {:induction false} EscapeSpellsAll(ascii: bool, s: string)
    ensures Spells(Escape(ascii, s), s)
    decreases |s|
  {
    hide SpellsChar, EscapeChar;
    if s != "" {
      EscapeSpells(ascii, s[0]);
      EscapeSpellsAll(ascii, s[1..]);
      var e, text := EscapeChar(ascii, s[0]), Escape(ascii, s);
      assert text[..|e|] == e && text[|e|..] == Escape(ascii, s[1..]);
      assert SpellsFrom(text, s, |e|);
    }
  }

  lemma {:induction false} GapIsGap(st: Style)
    ensures IsGap(st.Gap()) && IsGap("")
  {
  }

  lemma {:induction false} GapInFront(t: string, items: seq<Value>, g: string)
    requires ItemsText(t, items) && IsGap(g)
    ensures ItemsText(g + t, items)
  {
    hide Denotes;
    var item, more :| ItemsCut(t, items, item, more);
    var item' := Item(g + item.before, item.body, item.after);
    Associative(g, item.before, item.body + item.after);
    Associative(g, item.Text(), if |items| == 1 then "" else "," + more);
    assert ItemsCut(g + t, items, item', more);
  }

  lemma {:induction false} PrintItemsDenotes(st: Style, items: seq<Value>) returns (inside: string)
    requires items != [] && forall i :: 0 <= i < |items| ==> Held(items[i])
    ensures PrintItems(st, items) == inside + "]" && ItemsText(inside, items)
    decreases items, 0
  {
    hide Print, Denotes, IsGap, Held, ItemsText;
    PrintDenotes(st, items[0]);
    GapIsGap(st);
    var item := Item("", Print(st, items[0]), "");
    assert item.Text() == item.body;
    if |items| == 1 {
      inside := item.body;
      assert inside == item.Text() + "";
      ItemsMore(inside, items, item, "");
    } else {
      var rest := PrintItemsDenotes(st, items[1..]);
      var more := st.Gap() + rest;
      GapInFront(rest, items[1..], st.Gap());
      inside := item.body + ("," + more);
      ItemsMore(inside, items, item, more);
      assert PrintItems(st, items) == item.body + ("," + st.Gap() + PrintItems(st, items[1..]));
      assert "," + st.Gap() + (rest + "]") == ("," + more) + "]";
    }
  }

  lemma {:induction false} GapBeforeMembers(t: string, pairs: seq<Field>, g: string)
    requires MembersText(t, pairs) && IsGap(g)
    ensures MembersText(g + t, pairs)
  {
    hide Denotes, Spells;
    var member, more :| MembersCut(t, pairs, member, more);
    var member' := member.(before := g + member.before);
    var rest := "\"" + (member.key + ("\"" + (member.gap + (":" + member.item.Text()))));
    Associative(g, member.before, rest);
    Associative(g, member.Text(), if |pairs| == 1 then "" else "," + more);
    assert MembersCut(g + t, pairs, member', more);
  }

  lemma {:induction false} PrintFieldsDenotes(st: Style, fields: seq<Field>) returns (inside: string)
    requires fields != [] && forall i :: 0 <= i < |fields| ==> Held(fields[i].value)
    ensures PrintFields(st, fields) == inside + "}" && MembersText(inside, fields)
    decreases fields, 0
  {
    hide Print, Denotes, IsGap, Held, MembersText, Escape, Spells;
    PrintDenotes(st, fields[0].value);
    EscapeSpellsAll(st.ascii, fields[0].key);
    GapIsGap(st);
    var key, body := Escape(st.ascii, fields[0].key), Print(st, fields[0].value);
    var member := Member("", key, "", Item(st.Gap(), body, ""));
    var front := Quote(st.ascii, fields[0].key) + ":" + st.Gap() + body;
    MemberText(key, st.Gap(), body);
    if |fields| == 1 {
      inside := front;
      assert inside == member.Text() + "";
      MembersMore(inside, fields, member, "");
    } else {
      var rest := PrintFieldsDenotes(st, fields[1..]);
      var more := st.Gap() + rest;
      GapBeforeMembers(rest, fields[1..], st.Gap());
      inside := front + ("," + more);
      MembersMore(inside, fields, member, more);
      assert PrintFields(st, fields) == front + ("," + st.Gap() + PrintFields(st, fields[1..]));
      assert "," + st.Gap() + (rest + "}") == ("," + more) + "}";
    }
  }

  lemma {:induction false} MemberText(key: string, gap: string, body: string)
    ensures Member("", key, "", Item(gap, body, "")).Text() == "\"" + key + "\"" + ":" + gap + body
  {
  }

  /** Loading what was dumped gives it back, floats included. */
  lemma {:induction false} LoadsPrinted(st: Style, v: Value)
    requires Held(v)
    ensures Loads(Print(st, v)) == Some(v)
  {
    hide Print, Held, Loads, Denotes;
    PrintDenotes(st, v);
    var item := Item("", Print(st, v), "");
    assert item.Text() == Print(st, v);
    assert IsDocument(Print(st, v), item, v);
    LoadsIff(Print(st, v), v);
  }

  // ---------- what is loaded can be held ----------

  lemma {:induction false} DenotedIsHeld(t: string, v: Value)
    requires Denotes(t, v)
    ensures Held(v)
    decreases |t|, 1
  {
    hide FloatText, ItemsText, MembersText, Spells, FromPairs, IntegerText;
    match v
    case Arr(items) => if items != [] { ItemsHeld(Inside(t), items); }
    case Obj(fields) =>
      if fields != [] {
        var pairs :| MembersText(Inside(t), pairs) && fields == FromPairs(pairs);
        MembersHeld(Inside(t), pairs);
        FromPairsDistinct(pairs);
      }
    case _ =>
  }

  lemma {:induction false} ItemsHeld(t: string, items: seq<Value>)
    requires ItemsText(t, items)
    ensures forall i :: 0 <= i < |items| ==> Held(items[i])
    decreases |t|, 2
  {
    hide *;
    var item, more := FirstItem(t, items);
    DenotedIsHeld(item.body, items[0]);
    if |items| > 1 {
      ItemsHeld(more, items[1..]);
      assert forall i :: 0 < i < |items| ==> items[i] == items[1..][i - 1];
    }
  }

  lemma {:induction false} MembersHeld(t: string, pairs: seq<Field>)
    requires MembersText(t, pairs)
    ensures forall i :: 0 <= i < |pairs| ==> Held(pairs[i].value)
    decreases |t|, 2
  {
    hide *;
    var member, more := FirstMember(t, pairs);
    DenotedIsHeld(member.item.body, pairs[0].value);
    if |pairs| > 1 {
      MembersHeld(more, pairs[1..]);
      assert forall i :: 0 < i < |pairs| ==> pairs[i] == pairs[1..][i - 1];
    }
  }

  lemma {:induction false} LoadsHeld(s: string)
    requires Loads(s).Some?
    ensures Held(Loads(s).value)
  {
    hide Held, Loads, Denotes;
    var item := LoadedIsDocument(s, Loads(s).value);
    DenotedIsHeld(item.body, Loads(s).value);
  }
}
