/** Which receipts the schema allows: exactly those made from arguments in its domain. */
module EmitterDomain {
  import opened Json
  import opened JsonCanonical
  import opened Receipts
  import opened Emitter

  /** The given token counts are values a program can hold. */
  ghost predicate PlainCounts(a: Args) {
    (a.inputTokens.Given? ==> Plain(a.inputTokens.value)) && (a.outputTokens.Given? ==> Plain(a.outputTokens.value))
  }

  /** A value keeps or misses a scalar kind whatever the order of its keys. */
  lemma {:induction false} CountNorm(v: Value)
    ensures Meets(Nullable(Count), Norm(v)) <==> Meets(Nullable(Count), v)
  {
    hide Sort;
    assert Meets(Nullable(Count), v) <==> v.Null? || Meets(Count, v);
    assert Meets(Nullable(Count), Norm(v)) <==> Norm(v).Null? || Meets(Count, Norm(v));
  }

  lemma {:induction false} HashOnly(s: string)
    ensures Meets(Hash, Str(s)) <==> IsHashRef(s)
    ensures Meets(Nullable(Hash), Str(s)) <==> IsHashRef(s)
  {
    assert Meets(Nullable(Hash), Str(s)) <==> Meets(Hash, Str(s));
  }

  lemma {:induction false} NameOnly(names: seq<string>, s: string)
    ensures Meets(Name(names), Str(s)) <==> s in names
    ensures Meets(Nullable(Name(names)), Str(s)) <==> s in names
  {
    assert Meets(Nullable(Name(names)), Str(s)) <==> Meets(Name(names), Str(s));
  }

  /** The first property that arguments outside the domain break. */
  lemma {:induction false} BrokenProperty(hash: string -> Digest, a: Args, now: string, n: int) returns (j: nat)
    requires !InDomain(a)
    ensures j < 18 && !Meets(KeyKind(j), Norm(BaseValue(hash, a, now, n, j)))
  {
    hide IsHashRef, Meets, IntText, Sha256, WordCount, DAEMONS, TIERS, DEVICES;
    HashOnly(a.baseModelDigest);
    NameOnly(DAEMONS, a.providerDaemon);
    NameOnly(TIERS, a.tier);
    NameOnly(DEVICES, a.computeDevice);
    if a.tokenizerDigest.Some? { HashOnly(a.tokenizerDigest.value); }
    CountNorm(CountOf(a.inputTokens, a.inputText));
    CountNorm(CountOf(a.outputTokens, a.outputText));
    j := if !IsHashRef(a.baseModelDigest) then 6
         else if a.providerDaemon !in DAEMONS then 4
         else if a.tier !in TIERS then 5
         else if a.computeDevice !in DEVICES then 16
         else if a.tokenizerDigest.Some? && !IsHashRef(a.tokenizerDigest.value) then 7
         else if a.inputTokens.Given? && !Meets(Nullable(Count), a.inputTokens.value) then 10
         else 12;
  }

  lemma {:induction false} InvalidField(fields: seq<Field>, j: nat)
    requires j < |fields| && !FieldValid(fields[j].key, Norm(fields[j].value))
    ensures !Valid(Norm(Obj(fields)))
  {
    hide FieldValid, Sort, Find, REQUIRED;
    var normal := NormFields(fields);
    SortPermutes(normal);
    assert normal[j] in multiset(normal);
    assert normal[j] in Sort(normal);
  }

  lemma {:induction false} BasePlain(hash: string -> Digest, a: Args, now: string, n: int, i: nat)
    requires PlainCounts(a)
    ensures Plain(BaseValue(hash, a, now, n, i))
  {
    hide IntText, Sha256, WordCount;
  }

  lemma {:induction false} ReceiptPlain(hash: string -> Digest, a: Args, now: string, n: int, prev: Option<Value>)
    requires PlainCounts(a)
    ensures Plain(Receipt(hash, a, now, n, prev))
  {
    hide BaseValue, Sha256, Canonical, KEYS, PlainCounts, Plain;
    var fields := Receipt(hash, a, now, n, prev).fields;
    ReceiptKeys(hash, a, now, n, prev);
    forall i | 0 <= i < |fields| ensures Plain(fields[i].value) {
      if i < 18 { BasePlain(hash, a, now, n, i); } else { ChainPlain(hash, prev.value); }
    }
    ObjPlain(fields);
    ReceiptIsObj(hash, a, now, n, prev);
  }

  lemma {:induction false} ChainPlain(hash: string -> Digest, prev: Value)
    ensures Plain(ChainField(hash, prev).value)
  {
    hide Sha256, Canonical;
  }

  lemma {:induction false} ReceiptInvalid(hash: string -> Digest, a: Args, now: string, n: int, prev: Option<Value>)
    requires !InDomain(a)
    ensures !Valid(Norm(Receipt(hash, a, now, n, prev)))
  {
    hide InDomain, BaseValue, Meets, KindOf, KEYS, Valid, Norm, ChainField;
    var j := BrokenProperty(hash, a, now, n);
    BaseKeys(hash, a, now, n);
    KindOfKey(j);
    var fields := Receipt(hash, a, now, n, prev).fields;
    ReceiptIsObj(hash, a, now, n, prev);
    InvalidField(fields, j);
  }

  lemma {:induction false} ReceiptIsObj(hash: string -> Digest, a: Args, now: string, n: int, prev: Option<Value>)
    ensures Receipt(hash, a, now, n, prev) == Obj(Receipt(hash, a, now, n, prev).fields)
  {
  }

  lemma {:induction false} ObjPlain(fields: seq<Field>)
    ensures Plain(Obj(fields)) <==> PlainFields(fields)
  {
  }

  lemma {:induction false} DomainIsPlain(a: Args)
    requires InDomain(a)
    ensures PlainCounts(a)
  {
    hide IsHashRef;
    CountIsPlain(a.inputTokens);
    CountIsPlain(a.outputTokens);
  }

  lemma {:induction false} CountIsPlain(count: TokenCount)
    ensures count.Given? && Meets(Nullable(Count), count.value) ==> Plain(count.value)
  {
    assert count.Given? ==> (Meets(Nullable(Count), count.value) <==> count.value.Null? || Meets(Count, count.value));
  }

  /** The receipt, as a reader loads it, meets the schema exactly when the arguments are in its domain. */
  lemma {:induction false} SchemaDecides(hash: string -> Digest, a: Args, now: string, n: nat, prev: Option<Value>)
    requires n >= 1 ==> prev.Some?
    ensures Valid(Norm(Receipt(hash, a, now, n, prev))) <==> InDomain(a)
  {
    hide Valid, Find, Receipt, Norm, InDomain;
    if InDomain(a) {
      ReceiptValid(hash, a, now, n, prev);
      ReceiptIsObj(hash, a, now, n, prev);
      ReceiptKeys(hash, a, now, n, prev);
      ValidWhenSorted(Receipt(hash, a, now, n, prev).fields);
    } else {
      ReceiptInvalid(hash, a, now, n, prev);
    }
  }
}
