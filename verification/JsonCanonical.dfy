/** `canonical`: compact JSON with sorted keys, and the equality of Python dicts it decides. */
module JsonCanonical {
  import opened Json
  import opened JsonRoundTrip
  import opened TextOrder

  // ---------- sorting keys ----------

  function Insert(f: Field, fields: seq<Field>): seq<Field> {
    if fields == [] || Less(f.key, fields[0].key) then [f] + fields
    else [fields[0]] + Insert(f, fields[1..])
  }

  function Sort(fields: seq<Field>): seq<Field> {
    if fields == [] then [] else Insert(fields[0], Sort(fields[1..]))
  }

  /** The value with every object's keys in order. */
  function Norm(v: Value): Value
    decreases v
  {
    match v
    case Arr(items) => Arr(seq(|items|, i requires 0 <= i < |items| => Norm(items[i])))
    case Obj(fields) => Obj(Sort(NormFields(fields)))
    case _ => v
  }

  function NormFields(fields: seq<Field>): seq<Field>
    decreases fields
  {
    seq(|fields|, i requires 0 <= i < |fields| => Field(fields[i].key, Norm(fields[i].value)))
  }

  function Canonical(v: Value): string {
    Print(COMPACT_ASCII, Norm(v))
  }

  // ---------- Python's == ----------

  /** `v == w`: dicts compare as maps, whatever the order of their keys. */
  ghost predicate Same(v: Value, w: Value)
    decreases v
  {
    match v
    case Arr(items) =>
      w.Arr? && |items| == |w.items| && forall i :: 0 <= i < |items| ==> Same(items[i], w.items[i])
    case Obj(fields) =>
      w.Obj? && |fields| == |w.fields| && forall i :: 0 <= i < |fields| ==>
        var other := Find(w.fields, fields[i].key);
        other.Some? && Same(fields[i].value, other.value)
    case _ => v == w
  }

  // ---------- lookups ----------

  lemma {:induction false} FindNone(fields: seq<Field>, key: string)
    ensures Find(fields, key).None? <==> forall i :: 0 <= i < |fields| ==> fields[i].key != key
  {
    if fields != [] {
      FindNone(fields[1..], key);
      if Find(fields, key).None? {
        forall i | 0 <= i < |fields| ensures fields[i].key != key {
          if i > 0 { assert fields[i] == fields[1..][i - 1]; }
        }
      }
    }
  }

  lemma {:induction false} FindSome(fields: seq<Field>, key: string) returns (i: nat)
    requires Find(fields, key).Some?
    ensures i < |fields| && fields[i] == Field(key, Find(fields, key).value)
  {
    if fields[0].key == key {
      i := 0;
    } else {
      var j := FindSome(fields[1..], key);
      i := j + 1;
    }
  }

  lemma {:induction false} FindAt(fields: seq<Field>, i: nat)
    requires Distinct(fields) && i < |fields|
    ensures Find(fields, fields[i].key) == Some(fields[i].value)
  {
    if i > 0 {
      assert fields[i] == fields[1..][i - 1];
      FindAt(fields[1..], i - 1);
    }
  }

  lemma {:induction false} FindNorm(fields: seq<Field>, key: string)
    ensures Find(NormFields(fields), key) ==
            match Find(fields, key) { case None => None case Some(v) => Some(Norm(v)) }
  {
    if fields != [] {
      assert NormFields(fields)[1..] == NormFields(fields[1..]);
      FindNorm(fields[1..], key);
    }
  }

  // ---------- sorting keeps the map ----------

  lemma {:induction false} InsertFacts(f: Field, fields: seq<Field>)
    ensures multiset(Insert(f, fields)) == multiset([f] + fields)
  {
    if !(fields == [] || Less(f.key, fields[0].key)) {
      InsertFacts(f, fields[1..]);
      assert fields == [fields[0]] + fields[1..];
      assert multiset(Insert(f, fields)) == multiset([fields[0]]) + multiset(Insert(f, fields[1..]));
    }
  }

  lemma {:induction false} SortPermutes(fields: seq<Field>)
    ensures multiset(Sort(fields)) == multiset(fields)
    ensures |Sort(fields)| == |fields|
  {
    if fields != [] {
      SortPermutes(fields[1..]);
      InsertFacts(fields[0], Sort(fields[1..]));
      assert fields == [fields[0]] + fields[1..];
      assert multiset(Sort(fields)) == multiset([fields[0]]) + multiset(Sort(fields[1..]));
    }
    assert |multiset(Sort(fields))| == |Sort(fields)| && |multiset(fields)| == |fields|;
  }

  lemma {:induction false} InsertFind(f: Field, fields: seq<Field>, key: string)
    requires Find(fields, f.key).None?
    ensures Find(Insert(f, fields), key) == if key == f.key then Some(f.value) else Find(fields, key)
  {
    if !(fields == [] || Less(f.key, fields[0].key)) {
      InsertFind(f, fields[1..], key);
      assert Insert(f, fields)[1..] == Insert(f, fields[1..]);
    } else {
      assert Insert(f, fields)[1..] == fields;
    }
  }

  lemma {:induction false} SortFind(fields: seq<Field>, key: string)
    requires Distinct(fields)
    ensures Find(Sort(fields), key) == Find(fields, key)
  {
    if fields != [] {
      SortFind(fields[1..], fields[0].key);
      SortFind(fields[1..], key);
      FindNone(fields[1..], fields[0].key);
      InsertFind(fields[0], Sort(fields[1..]), key);
    }
  }

  ghost predicate Sorted(fields: seq<Field>) {
    forall i, j :: 0 <= i < j < |fields| ==> Less(fields[i].key, fields[j].key)
  }

  lemma {:induction false} ConsSorted(f: Field, rest: seq<Field>)
    requires Sorted(rest) && forall j :: 0 <= j < |rest| ==> Less(f.key, rest[j].key)
    ensures Sorted([f] + rest)
  {
    hide Less;
  }

  lemma {:induction false} InsertSorted(f: Field, fields: seq<Field>)
    requires Sorted(fields) && Find(fields, f.key).None?
    ensures Sorted(Insert(f, fields))
    ensures Insert(f, fields)[0] == f || (fields != [] && Insert(f, fields)[0] == fields[0])
  {
    hide Less;
    if fields == [] {
    } else if Less(f.key, fields[0].key) {
      forall j | 0 <= j < |fields| ensures Less(f.key, fields[j].key) {
        if j > 0 { LessTransitive(f.key, fields[0].key, fields[j].key); }
      }
      ConsSorted(f, fields);
    } else {
      LessTotal(f.key, fields[0].key);
      InsertSorted(f, fields[1..]);
      var rest := Insert(f, fields[1..]);
      forall j | 0 <= j < |rest| ensures Less(fields[0].key, rest[j].key) {
        InsertFacts(f, fields[1..]);
        assert rest[j] in multiset([f] + fields[1..]);
        assert rest[j] in [f] + fields[1..];
      }
      ConsSorted(fields[0], rest);
    }
  }

  lemma {:induction false} SortSorts(fields: seq<Field>)
    requires Distinct(fields)
    ensures Sorted(Sort(fields))
  {
    if fields != [] {
      SortSorts(fields[1..]);
      SortFind(fields[1..], fields[0].key);
      FindNone(fields[1..], fields[0].key);
      InsertSorted(fields[0], Sort(fields[1..]));
    }
  }

  lemma {:induction false} SortedDistinct(fields: seq<Field>)
    requires Sorted(fields)
    ensures Distinct(fields)
  {
    forall i, j | 0 <= i < j < |fields| ensures fields[i].key != fields[j].key {
      LessIrreflexive(fields[i].key);
    }
  }

  /** A sorted dict is determined by its lookups. */
  lemma {:induction false} SortedUnique(f: seq<Field>, g: seq<Field>)
    requires Sorted(f) && Sorted(g)
    requires forall key :: Find(f, key) == Find(g, key)
    ensures f == g
  {
    if f == [] || g == [] {
      assert g != [] ==> Find(f, g[0].key) == Find(g, g[0].key);
      assert f != [] ==> Find(f, f[0].key) == Find(g, f[0].key);
    } else {
      assert Find(f, f[0].key) == Find(g, f[0].key) && Find(f, g[0].key) == Find(g, g[0].key);
      var i := FindSome(g, f[0].key);
      var j := FindSome(f, g[0].key);
      if i > 0 && j > 0 {
        LessTransitive(f[0].key, f[j].key, f[0].key);
        LessIrreflexive(f[0].key);
      }
      assert f[0] == g[0];
      forall key ensures Find(f[1..], key) == Find(g[1..], key) {
        assert Find(f, key) == Find(g, key);
        if key == f[0].key {
          SortedDistinct(f);
          SortedDistinct(g);
          FindNone(f[1..], key);
          FindNone(g[1..], key);
        }
      }
      SortedUnique(f[1..], g[1..]);
      assert f == [f[0]] + f[1..] && g == [g[0]] + g[1..];
    }
  }

  // ---------- equal text exactly when equal ----------

  ghost function Keys(fields: seq<Field>): set<string> {
    set i | 0 <= i < |fields| :: fields[i].key
  }

  lemma {:induction false} KeysCount(fields: seq<Field>)
    requires Distinct(fields)
    ensures |Keys(fields)| == |fields|
  {
    if fields != [] {
      var n := |fields| - 1;
      KeysCount(fields[..n]);
      assert Keys(fields) == Keys(fields[..n]) + {fields[n].key};
      assert fields[n].key !in Keys(fields[..n]);
    }
  }

  lemma {:induction false} SubsetOfSameSize<T>(a: set<T>, b: set<T>)
    requires a <= b && |a| == |b|
    ensures a == b
  {
    assert b == a + (b - a);
    assert |b| == |a| + |b - a|;
  }

  /** Equal sizes and one inclusion make the key sets equal. */
  lemma {:induction false} SameKeys(f: seq<Field>, g: seq<Field>, key: string)
    requires Distinct(f) && Distinct(g) && |f| == |g|
    requires forall i :: 0 <= i < |f| ==> Find(g, f[i].key).Some?
    ensures Find(f, key).Some? == Find(g, key).Some?
  {
    KeysCount(f);
    KeysCount(g);
    forall k | k in Keys(f) ensures k in Keys(g) {
      var i :| 0 <= i < |f| && f[i].key == k;
      var j := FindSome(g, f[i].key);
    }
    SubsetOfSameSize(Keys(f), Keys(g));
    FindNone(f, key);
    FindNone(g, key);
    assert key in Keys(f) <==> key in Keys(g);
  }

  lemma {:induction false} NormDistinct(fields: seq<Field>)
    requires Distinct(fields)
    ensures Distinct(NormFields(fields)) && Sorted(Sort(NormFields(fields))) && Distinct(Sort(NormFields(fields)))
  {
    SortSorts(NormFields(fields));
    SortedDistinct(Sort(NormFields(fields)));
  }

  lemma {:induction false} FindNormalized(fields: seq<Field>, key: string)
    requires Distinct(fields)
    ensures Find(Sort(NormFields(fields)), key) ==
            match Find(fields, key) { case None => None case Some(v) => Some(Norm(v)) }
  {
    NormDistinct(fields);
    SortFind(NormFields(fields), key);
    FindNorm(fields, key);
  }

  lemma {:induction false} SameObjNorm(f: seq<Field>, g: seq<Field>)
    requires Distinct(f) && Distinct(g) && |f| == |g|
    requires forall i :: 0 <= i < |f| ==>
      Find(g, f[i].key).Some? && Norm(f[i].value) == Norm(Find(g, f[i].key).value)
    ensures Norm(Obj(f)) == Norm(Obj(g))
  {
    NormDistinct(f);
    NormDistinct(g);
    forall key ensures Find(Sort(NormFields(f)), key) == Find(Sort(NormFields(g)), key) {
      FindNormalized(f, key);
      FindNormalized(g, key);
      SameKeys(f, g, key);
      if Find(f, key).Some? { var i := FindSome(f, key); }
    }
    SortedUnique(Sort(NormFields(f)), Sort(NormFields(g)));
  }

  lemma {:induction false} NormObjSame(f: seq<Field>, g: seq<Field>)
    requires Distinct(f) && Distinct(g)
    requires Norm(Obj(f)) == Norm(Obj(g))
    ensures |f| == |g|
    ensures forall i :: 0 <= i < |f| ==>
      Find(g, f[i].key).Some? && Norm(f[i].value) == Norm(Find(g, f[i].key).value)
  {
    SortPermutes(NormFields(f));
    SortPermutes(NormFields(g));
    forall i | 0 <= i < |f|
      ensures Find(g, f[i].key).Some? && Norm(f[i].value) == Norm(Find(g, f[i].key).value)
    {
      FindAt(f, i);
      FindNormalized(f, f[i].key);
      FindNormalized(g, f[i].key);
    }
  }

  /** Two values are equal in Python exactly when they have one normal form. */
  lemma {:induction false} SameIffNormEqual(v: Value, w: Value)
    requires Plain(v) && Plain(w)
    ensures Same(v, w) <==> Norm(v) == Norm(w)
    decreases v
  {
    if v.Arr? && w.Arr? && |v.items| == |w.items| {
      forall i | 0 <= i < |v.items| ensures Same(v.items[i], w.items[i]) <==> Norm(v.items[i]) == Norm(w.items[i]) {
        SameIffNormEqual(v.items[i], w.items[i]);
      }
      if Norm(v) == Norm(w) {
        forall i | 0 <= i < |v.items| ensures Norm(v.items[i]) == Norm(w.items[i]) {
          assert Norm(v).items[i] == Norm(w).items[i];
        }
      }
      if Same(v, w) { assert Norm(v).items == Norm(w).items; }
    } else if v.Obj? && w.Obj? {
      var f, g := v.fields, w.fields;
      forall i | 0 <= i < |f| && Find(g, f[i].key).Some?
        ensures var x := Find(g, f[i].key).value; Same(f[i].value, x) <==> Norm(f[i].value) == Norm(x)
      {
        var j := FindSome(g, f[i].key);
        SameIffNormEqual(f[i].value, g[j].value);
      }
      if Same(v, w) { SameObjNorm(f, g); }
      if Norm(v) == Norm(w) { NormObjSame(f, g); }
    } else if v.Arr? && w.Arr? {
      assert |Norm(v).items| != |Norm(w).items|;
    }
  }

  lemma {:induction false} NormPlain(v: Value)
    requires Plain(v)
    ensures Plain(Norm(v))
    decreases v
  {
    match v
    case Arr(items) =>
      forall i | 0 <= i < |items| ensures Plain(Norm(v).items[i]) { NormPlain(items[i]); }
    case Obj(fields) =>
      NormDistinct(fields);
      SortPermutes(NormFields(fields));
      var sorted := Sort(NormFields(fields));
      forall i | 0 <= i < |sorted| ensures Plain(sorted[i].value) {
        assert sorted[i] in multiset(NormFields(fields));
        var j :| 0 <= j < |fields| && NormFields(fields)[j] == sorted[i];
        NormPlain(fields[j].value);
      }
    case _ =>
  }

  lemma {:induction false} NormIdempotent(v: Value)
    requires Plain(v)
    ensures Norm(Norm(v)) == Norm(v)
    decreases v
  {
    match v
    case Arr(items) =>
      forall i | 0 <= i < |items| ensures Norm(Norm(v)).items[i] == Norm(v).items[i] { NormIdempotent(items[i]); }
    case Obj(fields) =>
      NormDistinct(fields);
      var sorted := Sort(NormFields(fields));
      SortPermutes(NormFields(fields));
      forall i | 0 <= i < |sorted| ensures NormFields(sorted)[i] == sorted[i] {
        assert sorted[i] in multiset(NormFields(fields));
        var j :| 0 <= j < |fields| && NormFields(fields)[j] == sorted[i];
        NormIdempotent(fields[j].value);
      }
      assert NormFields(sorted) == sorted;
      SortSorts(sorted);
      forall key ensures Find(Sort(sorted), key) == Find(sorted, key) { SortFind(sorted, key); }
      SortedUnique(Sort(sorted), sorted);
    case _ =>
  }

  /** `json.loads(canonical(v))` is `v` with its keys sorted, hence equal to `v`. */
  lemma {:induction false} LoadsCanonical(v: Value)
    requires Plain(v)
    ensures Loads(Canonical(v)) == Some(Norm(v))
    ensures Loads(Canonical(v) + "\n") == Some(Norm(v))
    ensures Same(Norm(v), v)
    ensures Canonical(Norm(v)) == Canonical(v)
  {
    NormPlain(v);
    LoadsDumps(COMPACT_ASCII, Norm(v));
    NormIdempotent(v);
    SameIffNormEqual(Norm(v), v);
  }

  /** Every object's keys, at every depth, in ascending order. */
  ghost predicate KeysSorted(v: Value)
    decreases v
  {
    match v
    case Arr(items) => forall i :: 0 <= i < |items| ==> KeysSorted(items[i])
    case Obj(fields) => Sorted(fields) && forall i :: 0 <= i < |fields| ==> KeysSorted(fields[i].value)
    case _ => true
  }

  lemma {:induction false} NormSorted(v: Value)
    requires Plain(v)
    ensures KeysSorted(Norm(v))
    decreases v
  {
    match v
    case Arr(items) =>
      forall i | 0 <= i < |items| ensures KeysSorted(Norm(v).items[i]) { NormSorted(items[i]); }
    case Obj(fields) =>
      NormDistinct(fields);
      var sorted := Sort(NormFields(fields));
      SortPermutes(NormFields(fields));
      forall i | 0 <= i < |sorted| ensures KeysSorted(sorted[i].value) {
        assert sorted[i] in multiset(NormFields(fields));
        var j :| 0 <= j < |fields| && NormFields(fields)[j] == sorted[i];
        NormSorted(fields[j].value);
      }
    case _ =>
  }

  /** Canonical text loads with the keys in order, as a value equal to the one that was written. */
  lemma {:induction false} CanonicalSorted(v: Value)
    requires Plain(v)
    ensures Loads(Canonical(v)).Some? && KeysSorted(Loads(Canonical(v)).value) && Same(Loads(Canonical(v)).value, v)
  {
    LoadsCanonical(v);
    NormSorted(v);
  }

  /** Equal text exactly when equal values, whatever the insertion order of the keys. */
  lemma {:induction false} CanonicalDecidesSame(v: Value, w: Value)
    requires Plain(v) && Plain(w)
    ensures Canonical(v) == Canonical(w) <==> Same(v, w)
  {
    LoadsCanonical(v);
    LoadsCanonical(w);
    SameIffNormEqual(v, w);
  }

  // ---------- the alphabet of printed text ----------

  /** The characters of JSON text as the encoder writes it. */
  predicate InAlphabet(ascii: bool, c: char) { ' ' <= c && (ascii ==> c <= '~') }

  predicate Printable(ascii: bool, s: string) {
    forall i :: 0 <= i < |s| ==> InAlphabet(ascii, s[i])
  }

  lemma {:induction false} Hex4Printable(n: int)
    requires 0 <= n < 0x10000
    ensures Printable(true, UnicodeEscape(n))
  {
    forall d | 0 <= d < 16 ensures ' ' <= HexDigit(d) <= '~' {}
    assert forall i :: 0 <= i < 4 ==> ' ' <= Hex4(n)[i] <= '~';
  }

  lemma {:induction false} EscapeCharPrintable(ascii: bool, c: char)
    ensures Printable(ascii, EscapeChar(ascii, c))
  {
    hide UnicodeEscape;
    if c as int < 0x10000 {
      Hex4Printable(c as int);
    } else {
      Hex4Printable(0xD800 + (c as int - 0x10000) / 0x400);
      Hex4Printable(0xDC00 + (c as int - 0x10000) % 0x400);
    }
  }

  lemma {:induction false} PrintableAppend(ascii: bool, s: string, t: string)
    requires Printable(ascii, s) && Printable(ascii, t)
    ensures Printable(ascii, s + t)
  {
    hide InAlphabet;
  }

  lemma {:induction false} EscapePrintable(ascii: bool, s: string)
    ensures Printable(ascii, Escape(ascii, s))
  {
    if s != "" {
      hide EscapeChar, Printable;
      EscapePrintable(ascii, s[1..]);
      EscapeCharPrintable(ascii, s[0]);
      PrintableAppend(ascii, EscapeChar(ascii, s[0]), Escape(ascii, s[1..]));
    } else {
      assert Printable(ascii, "");
    }
  }

  lemma {:induction false} IntPrintable(ascii: bool, n: int)
    ensures Printable(ascii, IntText(n))
  {
    NatTextIsDecimal(if n < 0 then -n else n);
    forall i | 0 <= i < |IntText(n)| ensures ' ' <= IntText(n)[i] <= '~' {
      var d := NatText(if n < 0 then -n else n);
      assert IntText(n)[i] == '-' || IntText(n)[i] in d;
    }
  }

  lemma {:induction false} PrintPrintable(st: Style, v: Value)
    requires Plain(v)
    ensures Printable(st.ascii, Print(st, v))
    decreases v, 1
  {
    match v
    case Num(n) => IntPrintable(st.ascii, n);
    case Str(s) => QuotePrintable(st.ascii, s);
    case Arr(items) =>
      if items != [] {
        PrintItemsPrintable(st, items);
        PrintableAppend(st.ascii, "[", PrintItems(st, items));
      }
    case Obj(fields) =>
      if fields != [] {
        PrintFieldsPrintable(st, fields);
        PrintableAppend(st.ascii, "{", PrintFields(st, fields));
      }
    case _ =>
  }

  lemma {:induction false} QuotePrintable(ascii: bool, s: string)
    ensures Printable(ascii, Quote(ascii, s))
  {
    hide Escape;
    EscapePrintable(ascii, s);
  }

  lemma {:induction false} PrintItemsPrintable(st: Style, items: seq<Value>)
    requires items != [] && forall i :: 0 <= i < |items| ==> Plain(items[i])
    ensures Printable(st.ascii, PrintItems(st, items))
    decreases items, 0
  {
    hide Print, Plain, InAlphabet;
    PrintPrintable(st, items[0]);
    assert Printable(st.ascii, "," + st.Gap()) && Printable(st.ascii, "]") by { SeparatorPrintable(st); }
    if |items| > 1 {
      PrintItemsPrintable(st, items[1..]);
      PrintableAppend(st.ascii, "," + st.Gap(), PrintItems(st, items[1..]));
      PrintableAppend(st.ascii, Print(st, items[0]), "," + st.Gap() + PrintItems(st, items[1..]));
    } else {
      PrintableAppend(st.ascii, Print(st, items[0]), "]");
    }
  }

  lemma {:induction false} SeparatorPrintable(st: Style)
    ensures Printable(st.ascii, "," + st.Gap()) && Printable(st.ascii, ":" + st.Gap())
    ensures Printable(st.ascii, "]") && Printable(st.ascii, "}")
  {
  }

  lemma {:induction false} PrintFieldsPrintable(st: Style, fields: seq<Field>)
    requires fields != [] && forall i :: 0 <= i < |fields| ==> Plain(fields[i].value)
    ensures Printable(st.ascii, PrintFields(st, fields))
    decreases fields, 0
  {
    hide Print, Quote, Plain, InAlphabet, Printable;
    SeparatorPrintable(st);
    QuotePrintable(st.ascii, fields[0].key);
    PrintPrintable(st, fields[0].value);
    var key, value := Quote(st.ascii, fields[0].key), Print(st, fields[0].value);
    PrintableAppend(st.ascii, key, ":" + st.Gap());
    assert key + ":" + st.Gap() == key + (":" + st.Gap());
    PrintableAppend(st.ascii, key + ":" + st.Gap(), value);
    if |fields| > 1 {
      PrintFieldsPrintable(st, fields[1..]);
      PrintableAppend(st.ascii, "," + st.Gap(), PrintFields(st, fields[1..]));
      PrintableAppend(st.ascii, key + ":" + st.Gap() + value, "," + st.Gap() + PrintFields(st, fields[1..]));
    } else {
      PrintableAppend(st.ascii, key + ":" + st.Gap() + value, "}");
    }
  }

  /** Canonical text uses only U+0020..U+007E. */
  lemma {:induction false} CanonicalPrintable(v: Value)
    requires Plain(v)
    ensures Printable(true, Canonical(v))
  {
    NormPlain(v);
    PrintPrintable(COMPACT_ASCII, Norm(v));
  }
}
