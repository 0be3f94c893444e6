/** `emit_receipt`: one locked append to the hash-chained ledger. */
module Emitter {
  import opened Sequences
  import opened Json
  import opened JsonRoundTrip
  import opened JsonCanonical
  import opened Lines
  import opened Receipts

  /** A token count argument: estimated from the text, or given (a provider's JSON value, or null). */
  datatype TokenCount = Estimate | Given(value: Value)

  datatype Args = Args(
    baseModelDigest: string, task: string, inputText: string, outputText: string,
    providerDaemon: string, tier: string, tokenizerDigest: Option<string>, computeDevice: string,
    inputTokens: TokenCount, outputTokens: TokenCount)

  /** Why an emit raised: the tail is not JSON, or it has no usable `ledgerSeq`. */
  datatype Failure = TailNotJson | TailHasNoSeq

  datatype Result<+T> = Success(value: T) | Raised(why: Failure)

  /** `len(s.split())`. */
  function WordCount(s: string, inWord: bool): nat {
    if s == "" then 0
    else if IsStripped(s[0]) then WordCount(s[1..], false)
    else (if inWord then 0 else 1) + WordCount(s[1..], true)
  }

  /** A word of `s.split()` starts at `i`. */
  predicate StartsWord(s: string, i: nat)
    requires i < |s|
  {
    !IsStripped(s[i]) && (i == 0 || IsStripped(s[i - 1]))
  }

  /** The places where a word starts. */
  function WordStarts(s: string): set<nat> {
    set i: nat | i < |s| && StartsWord(s, i)
  }

  lemma {:induction false} WordStartsLast(s: string, c: char)
    ensures |WordStarts(s + [c])| == |WordStarts(s)| + if StartsWord(s + [c], |s|) then 1 else 0
  {
    hide IsStripped;
    var t := s + [c];
    assert forall i: nat :: i < |s| ==> (StartsWord(t, i) <==> StartsWord(s, i));
    assert WordStarts(t) == WordStarts(s) + if StartsWord(t, |s|) then {|s|} else {};
  }

  lemma {:induction false} WordCountLast(s: string, c: char, inWord: bool)
    ensures WordCount(s + [c], inWord) ==
            WordCount(s, inWord) +
            if !IsStripped(c) && (if s == "" then !inWord else IsStripped(s[|s| - 1])) then 1 else 0
  {
    hide IsStripped;
    if s == "" {
      assert ([c])[1..] == "" && s + [c] == [c];
    } else {
      assert (s + [c])[1..] == s[1..] + [c];
      WordCountLast(s[1..], c, !IsStripped(s[0]));
    }
  }

  /** The estimated token count is the number of words. */
  lemma {:induction false} WordCountIs(s: string)
    ensures WordCount(s, false) == |WordStarts(s)|
  {
    hide IsStripped;
    if s != "" {
      var init, c := s[..|s| - 1], s[|s| - 1];
      assert init + [c] == s;
      WordCountIs(init);
      WordCountLast(init, c, false);
      WordStartsLast(init, c);
    } else {
      assert WordStarts(s) == {};
    }
  }

  function CountOf(count: TokenCount, text: string): Value {
    match count
    case Estimate => Num(WordCount(text, false))
    case Given(v) => v
  }

  /** The value an emitter puts under `KEYS[i]`. */
  function BaseValue(hash: string -> Digest, a: Args, now: string, n: int, i: int): Value {
    match i
    case 0 => Str("urn:srcos:inference-receipt:" + a.task + "-" + IntText(n))
    case 1 => Str("InferenceReceipt")
    case 2 => Str("2.1.0")
    case 3 => Str(now)
    case 4 => Str(a.providerDaemon)
    case 5 => Str(a.tier)
    case 6 => Str(a.baseModelDigest)
    case 7 => if a.tokenizerDigest.None? then Null else Str(a.tokenizerDigest.value)
    case 8 => Str(a.task)
    case 9 => Str(Sha256(hash, a.inputText))
    case 10 => CountOf(a.inputTokens, a.inputText)
    case 11 => Str(Sha256(hash, a.outputText))
    case 12 => CountOf(a.outputTokens, a.outputText)
    case 13 => Str("on_device_only")
    case 14 => Null
    case 15 => Arr([])
    case 16 => Str(a.computeDevice)
    case _ => Num(n)
  }

  /** The dict as first filled, before the hash of the previous entry is added. */
  function BaseFields(hash: string -> Digest, a: Args, now: string, n: int): (fields: seq<Field>)
    ensures |fields| == 18
  {
    seq(18, i requires 0 <= i < 18 => KeysDistinct(); Field(KEYS[i], BaseValue(hash, a, now, n, i)))
  }

  function ChainField(hash: string -> Digest, prev: Value): Field {
    Field("ledgerPrevHash", Str(Sha256(hash, Canonical(prev))))
  }

  /** The receipt that follows `prev` as entry `n`. */
  function Receipt(hash: string -> Digest, a: Args, now: string, n: int, prev: Option<Value>): Value {
    Obj(BaseFields(hash, a, now, n) +
        if n >= 1 && prev.Some? then [ChainField(hash, prev.value)] else [])
  }

  /** `prev["ledgerSeq"] + 1`, or 0 when there is no previous entry or a falsy one. */
  function NextSeq(prev: Option<Value>): Result<int> {
    match prev
    case None => Success(0)
    case Some(v) =>
      if !v.Truthy() then Success(0)
      else if !v.Obj? then Raised(TailHasNoSeq)
      else
        match Find(v.fields, "ledgerSeq")
        case Some(Num(n)) => Success(n + 1)
        case Some(Bool(b)) => Success(if b then 2 else 1)
        case _ => Raised(TailHasNoSeq)
  }

  /** `_last_entry`. */
  function LastEntry(file: string): Result<Option<Value>> {
    var lines := EmitterLines(file);
    if lines == [] then Success(None)
    else
      match Loads(lines[|lines| - 1])
      case None => Raised(TailNotJson)
      case some => Success(some)
  }

  /** What one emit returns on a file with this content. */
  function NextReceipt(hash: string -> Digest, file: string, a: Args, now: string): Result<Value> {
    match LastEntry(file)
    case Raised(why) => Raised(why)
    case Success(prev) =>
      match NextSeq(prev)
      case Raised(why) => Raised(why)
      case Success(n) => Success(Receipt(hash, a, now, n, prev))
  }

  /** The ledger file and its advisory lock. */
  class LedgerFile {
    var text: string
    var locked: bool

    constructor ()
      ensures text == "" && !locked
    {
      text, locked := "", false;
    }

    /** A bounded queue of length one, fed with the non-blank lines. */
    method ReadLastEntry() returns (r: Result<Option<Value>>)
      ensures r == LastEntry(text)
    {
      hide FileLines, UniversalNewlines, Loads, NonBlank;
      var lines := FileLines(UniversalNewlines(text));
      assert NonBlank(lines[..0]) == [] by { NonBlankNothing(lines); }
      var tail: Option<string> := None;
      for i := 0 to |lines|
        invariant var seen := NonBlank(lines[..i]);
                  tail == if seen == [] then None else Some(seen[|seen| - 1])
      {
        NonBlankStep(lines, i);
        if !IsBlank(lines[i]) {
          tail := Some(lines[i]);
        }
      }
      assert lines[..|lines|] == lines;
      if tail.None? {
        return Success(None);
      }
      var entry := Loads(tail.value);
      if entry.None? {
        return Raised(TailNotJson);
      }
      return Success(entry);
    }

    /** Appends one receipt, or raises and leaves every byte as it was; either way the lock is free again. */
    method EmitReceipt(hash: string -> Digest, a: Args, now: string) returns (r: Result<Value>)
      requires !locked
      modifies this
      ensures !locked
      ensures r == NextReceipt(hash, old(text), a, now)
      ensures r.Success? ==> text == old(text) + Canonical(r.value) + "\n"
      ensures r.Raised? ==> text == old(text)
    {
      hide Canonical, Loads, LastEntry, NextSeq, BaseFields, Assign;
      locked := true;
      var prev := ReadLastEntry();
      if prev.Raised? {
        locked := false;
        return Raised(prev.why);
      }
      var n := NextSeq(prev.value);
      if n.Raised? {
        locked := false;
        return Raised(n.why);
      }
      var receipt := BaseFields(hash, a, now, n.value);
      if n.value >= 1 && prev.value.Some? {
        var link := ChainField(hash, prev.value.value);
        BaseKeys(hash, a, now, n.value);
        AssignNew(receipt, link.key, link.value);
        receipt := Assign(receipt, link.key, link.value);
      }
      assert receipt == Receipt(hash, a, now, n.value, prev.value).fields;
      text := text + Canonical(Obj(receipt)) + "\n";
      locked := false;
      return Success(Obj(receipt));
    }
  }

  lemma {:induction false} NonBlankNothing(lines: seq<string>)
    ensures NonBlank(lines[..0]) == []
  {
  }

  lemma {:induction false} NonBlankStep(lines: seq<string>, i: nat)
    requires i < |lines|
    ensures NonBlank(lines[..i + 1]) == NonBlank(lines[..i]) + if IsBlank(lines[i]) then [] else [lines[i]]
  {
    assert lines[..i + 1] == lines[..i] + [lines[i]];
    NonBlankAppend(lines[..i], [lines[i]]);
    assert NonBlank([lines[i]]) == if IsBlank(lines[i]) then [] else [lines[i]];
  }

  // ---------- the receipt meets the schema ----------

  /** The arguments the schema allows. */
  predicate InDomain(a: Args) {
    && IsHashRef(a.baseModelDigest)
    && a.providerDaemon in DAEMONS && a.tier in TIERS && a.computeDevice in DEVICES
    && (a.tokenizerDigest.Some? ==> IsHashRef(a.tokenizerDigest.value))
    && (a.inputTokens.Given? ==> Meets(Nullable(Count), a.inputTokens.value))
    && (a.outputTokens.Given? ==> Meets(Nullable(Count), a.outputTokens.value))
  }

  /** An emitter fills in the first 18 keys, in order. */
  lemma {:induction false} BaseKeys(hash: string -> Digest, a: Args, now: string, n: int)
    ensures |KEYS| == 19 && KEYS[18] == "ledgerPrevHash"
    ensures forall i :: 0 <= i < 18 ==> BaseFields(hash, a, now, n)[i].key == KEYS[i] != "ledgerPrevHash"
  {
    KeysDistinct();
    assert KEYS[18] == "ledgerPrevHash";
    hide BaseValue, KEYS;
  }

  lemma {:induction false} ReceiptKeys(hash: string -> Digest, a: Args, now: string, n: int, prev: Option<Value>)
    ensures var fields := Receipt(hash, a, now, n, prev).fields;
            && |fields| == (if n >= 1 && prev.Some? then 19 else 18) <= |KEYS|
            && (forall i :: 0 <= i < |fields| ==> fields[i].key == KEYS[i])
            && Distinct(fields)
  {
    BaseKeys(hash, a, now, n);
    KeysDistinct();
    hide BaseValue, KEYS, Canonical, Sha256;
  }

  /** Looking up the `i`-th key of a receipt. */
  lemma {:induction false} ReceiptLookup(hash: string -> Digest, a: Args, now: string, n: int, prev: Option<Value>,
                                         i: nat)
    requires i < |Receipt(hash, a, now, n, prev).fields|
    ensures var fields := Receipt(hash, a, now, n, prev).fields;
            i < |KEYS| && Find(fields, KEYS[i]) == Some(fields[i].value)
  {
    hide BaseFields, Find, KEYS;
    ReceiptKeys(hash, a, now, n, prev);
    FindAt(Receipt(hash, a, now, n, prev).fields, i);
  }

  lemma {:induction false} HashIsHashRef(hash: string -> Digest, s: string)
    ensures IsHashRef(Sha256(hash, s))
  {
  }

  /** Every value of a receipt is a scalar or the empty list. */
  predicate Flat(v: Value) {
    match v
    case Arr(items) => items == []
    case Obj(_) => false
    case Float(_) => false
    case _ => true
  }

  ghost predicate FlatFields(fields: seq<Field>) {
    forall i :: 0 <= i < |fields| ==> Flat(fields[i].value)
  }

  lemma {:induction false} IdMeets(task: string, n: nat)
    ensures Meets(Ref("urn:srcos:inference-receipt:"), Str("urn:srcos:inference-receipt:" + task + "-" + IntText(n)))
  {
    hide IntText;
    var local := task + "-" + IntText(n);
    assert "urn:srcos:inference-receipt:" + task + "-" + IntText(n) == "urn:srcos:inference-receipt:" + local;
  }

  lemma {:induction false} HashMeets(hash: string -> Digest, s: string)
    ensures Meets(Hash, Str(Sha256(hash, s))) && Meets(Nullable(Hash), Str(Sha256(hash, s)))
  {
    HashIsHashRef(hash, s);
    hide Sha256;
  }

  /** The counts are null or nonnegative, whether estimated or given. */
  lemma {:induction false} CountMeets(count: TokenCount, text: string)
    requires count.Given? ==> Meets(Nullable(Count), count.value)
    ensures Meets(Nullable(Count), CountOf(count, text)) && Flat(CountOf(count, text))
  {
    var v := CountOf(count, text);
    assert v.Null? || Meets(Count, v);
  }

  lemma {:induction false} NamesMeet(a: Args)
    requires InDomain(a)
    ensures Meets(Name(DAEMONS), Str(a.providerDaemon)) && Meets(Name(TIERS), Str(a.tier))
    ensures Meets(Nullable(Name(DEVICES)), Str(a.computeDevice)) && Meets(Name(RESIDENCIES), Str("on_device_only"))
    ensures Meets(Hash, Str(a.baseModelDigest))
    ensures Meets(Nullable(Hash), if a.tokenizerDigest.None? then Null else Str(a.tokenizerDigest.value))
  {
    hide IsHashRef;
    assert RESIDENCIES[0] == "on_device_only";
  }

  lemma {:induction false} CountsMeet(a: Args)
    requires InDomain(a)
    ensures Meets(Nullable(Count), CountOf(a.inputTokens, a.inputText)) && Flat(CountOf(a.inputTokens, a.inputText))
    ensures Meets(Nullable(Count), CountOf(a.outputTokens, a.outputText)) && Flat(CountOf(a.outputTokens, a.outputText))
  {
    hide IsHashRef, WordCount;
    CountMeets(a.inputTokens, a.inputText);
    CountMeets(a.outputTokens, a.outputText);
  }

  lemma {:induction false} BaseFlat(hash: string -> Digest, a: Args, now: string, n: nat, i: nat)
    requires InDomain(a)
    ensures Flat(BaseValue(hash, a, now, n, i))
  {
    hide IntText, Sha256, Meets, CountOf, InDomain;
    CountsMeet(a);
  }

  lemma {:induction false} BaseMeets(hash: string -> Digest, a: Args, now: string, n: nat, i: nat)
    requires InDomain(a) && i < 18
    ensures Meets(KeyKind(i), BaseValue(hash, a, now, n, i))
  {
    hide InDomain, IntText, Sha256, Meets, CountOf, Flat;
    IdMeets(a.task, n);
    HashMeets(hash, a.inputText);
    HashMeets(hash, a.outputText);
    CountsMeet(a);
    NamesMeet(a);
    OtherMeets(now, a.task, n);
  }

  lemma {:induction false} BaseValid(hash: string -> Digest, a: Args, now: string, n: nat)
    requires InDomain(a)
    ensures var fields := BaseFields(hash, a, now, n);
            forall i :: 0 <= i < |fields| ==> FieldValid(fields[i].key, fields[i].value) && Flat(fields[i].value)
  {
    hide Meets, BaseValue, KindOf, InDomain, Flat, KEYS, KeyKind;
    forall i | 0 <= i < 18
      ensures FieldValid(BaseFields(hash, a, now, n)[i].key, BaseFields(hash, a, now, n)[i].value)
      ensures Flat(BaseFields(hash, a, now, n)[i].value)
    {
      KeysDistinct();
      BaseFlat(hash, a, now, n, i);
      BaseMeets(hash, a, now, n, i);
      KindOfKey(i);
    }
  }

  lemma {:induction false} OtherMeets(now: string, task: string, n: nat)
    ensures Meets(Tag, Str("InferenceReceipt")) && Meets(Text, Str("2.1.0")) && Meets(Text, Str(now)) && Meets(Text,
            Str(task))
    ensures Meets(Nullable(Name(ESCALATED)), Null) && Meets(EscalationUrns, Arr([])) && Meets(Count, Num(n))
  {
  }

  /** The new receipt meets every property and all three conditional rules of the schema. */
  lemma {:induction false} ReceiptValid(hash: string -> Digest, a: Args, now: string, n: nat, prev: Option<Value>)
    requires InDomain(a) && (n >= 1 ==> prev.Some?)
    ensures var r := Receipt(hash, a, now, n, prev);
            && Valid(r) && Plain(r) && FlatFields(r.fields)
            && Find(r.fields, "ledgerSeq") == Some(Num(n))
            && Find(r.fields, "ledgerPrevHash") ==
               if n >= 1 then Some(Str(Sha256(hash, Canonical(prev.value)))) else None
  {
    hide BaseFields, FieldValid, Find, InDomain, KEYS;
    ReceiptFieldsValid(hash, a, now, n, prev);
    ReceiptFinds(hash, a, now, n, prev);
    var fields := Receipt(hash, a, now, n, prev).fields;
    ReceiptKeys(hash, a, now, n, prev);
    forall i | 0 <= i < |REQUIRED| ensures Find(fields, REQUIRED[i]).Some? {
      var j := RequiredIsFilled(i);
      ReceiptLookup(hash, a, now, n, prev, j);
    }
  }

  lemma {:induction false} ReceiptFieldsValid(hash: string -> Digest, a: Args, now: string, n: nat, prev: Option<Value>)
    requires InDomain(a) && (n >= 1 ==> prev.Some?)
    ensures var fields := Receipt(hash, a, now, n, prev).fields;
            forall i :: 0 <= i < |fields| ==> FieldValid(fields[i].key, fields[i].value) && Flat(fields[i].value)
  {
    hide BaseFields, FieldValid, InDomain, Flat, ChainField, KEYS;
    BaseKeys(hash, a, now, n);
    BaseValid(hash, a, now, n);
    if n >= 1 { ChainFieldValid(hash, prev.value); }
  }

  /** The keys the conditional rules look at, by position. */
  lemma {:induction false} RuleKeys()
    ensures |KEYS| == 19 && KEYS[13] == "dataResidencyClass" && KEYS[14] == "escalatedFrom"
    ensures KEYS[17] == "ledgerSeq" && KEYS[18] == "ledgerPrevHash"
  {
  }

  lemma {:induction false} BaseRuleValues(hash: string -> Digest, a: Args, now: string, n: nat)
    ensures var fields := BaseFields(hash, a, now, n);
            && fields[13].value == Str("on_device_only") && fields[14].value == Null && fields[17].value == Num(n)
  {
    hide KEYS, IntText, Sha256, CountOf;
  }

  lemma {:induction false} ReceiptFinds(hash: string -> Digest, a: Args, now: string, n: nat, prev: Option<Value>)
    requires n >= 1 ==> prev.Some?
    ensures var fields := Receipt(hash, a, now, n, prev).fields;
            && Find(fields, "dataResidencyClass") == Some(Str("on_device_only"))
            && Find(fields, "escalatedFrom") == Some(Null)
            && Find(fields, "ledgerSeq") == Some(Num(n))
            && Find(fields, "ledgerPrevHash") ==
               if n >= 1 then Some(Str(Sha256(hash, Canonical(prev.value)))) else None
  {
    hide Canonical, Sha256, Find, KEYS, BaseFields;
    RuleKeys();
    BaseRuleValues(hash, a, now, n);
    var fields := Receipt(hash, a, now, n, prev).fields;
    BaseKeys(hash, a, now, n);
    ReceiptKeys(hash, a, now, n, prev);
    ReceiptLookup(hash, a, now, n, prev, 13);
    ReceiptLookup(hash, a, now, n, prev, 14);
    ReceiptLookup(hash, a, now, n, prev, 17);
    if n >= 1 {
      ReceiptLookup(hash, a, now, n, prev, 18);
    } else {
      FindNone(fields, "ledgerPrevHash");
    }
  }

  /** The receipt carries the arguments of the call, each under its own name. */
  ghost predicate Carries(hash: string -> Digest, fields: seq<Field>, a: Args) {
    && Find(fields, "providerDaemon") == Some(Str(a.providerDaemon))
    && Find(fields, "tier") == Some(Str(a.tier))
    && Find(fields, "baseModelDigest") == Some(Str(a.baseModelDigest))
    && Find(fields, "tokenizerDigest") == Some(if a.tokenizerDigest.None? then Null else Str(a.tokenizerDigest.value))
    && Find(fields, "task") == Some(Str(a.task))
    && Find(fields, "computeDevice") == Some(Str(a.computeDevice))
    && CarriesTexts(hash, fields, a)
  }

  /** A count as the caller gives it, or else the number of words. */
  function CountIs(count: TokenCount, text: string): Value {
    match count case Given(v) => v case Estimate => Num(|WordStarts(text)|)
  }

  lemma {:induction false} CountMeans(count: TokenCount, text: string)
    ensures CountOf(count, text) == CountIs(count, text)
  {
    hide WordCount, WordStarts;
    WordCountIs(text);
  }

  ghost predicate CarriesTexts(hash: string -> Digest, fields: seq<Field>, a: Args) {
    && Find(fields, "inputHash") == Some(Str("sha256:" + hash(a.inputText)))
    && Find(fields, "inputTokenCount") == Some(CountIs(a.inputTokens, a.inputText))
    && Find(fields, "outputHash") == Some(Str("sha256:" + hash(a.outputText)))
    && Find(fields, "outputTokenCount") == Some(CountIs(a.outputTokens, a.outputText))
  }

  lemma {:induction false} NameKeys()
    ensures |KEYS| == 19 && KEYS[4] == "providerDaemon" && KEYS[5] == "tier" && KEYS[6] == "baseModelDigest"
    ensures KEYS[7] == "tokenizerDigest" && KEYS[8] == "task" && KEYS[16] == "computeDevice"
  {
  }

  lemma {:induction false} TextKeys()
    ensures |KEYS| == 19 && KEYS[9] == "inputHash" && KEYS[10] == "inputTokenCount"
    ensures KEYS[11] == "outputHash" && KEYS[12] == "outputTokenCount"
  {
  }

  lemma {:induction false} ValueAt(hash: string -> Digest, a: Args, now: string, n: int, prev: Option<Value>, i: nat)
    requires i < 18
    ensures i < |KEYS| && Find(Receipt(hash, a, now, n, prev).fields, KEYS[i]) == Some(BaseValue(hash, a, now, n, i))
  {
    hide KEYS, BaseValue, Find;
    KeysDistinct();
    ReceiptLookup(hash, a, now, n, prev, i);
  }

  lemma {:induction false} ReceiptCarriesTexts(hash: string -> Digest, a: Args, now: string, n: int,
                                               prev: Option<Value>)
    ensures CarriesTexts(hash, Receipt(hash, a, now, n, prev).fields, a)
  {
    hide KEYS, Receipt, CountOf, CountIs, Find, IntText;
    TextKeys();
    CountMeans(a.inputTokens, a.inputText);
    CountMeans(a.outputTokens, a.outputText);
    ValueAt(hash, a, now, n, prev, 9);
    ValueAt(hash, a, now, n, prev, 10);
    ValueAt(hash, a, now, n, prev, 11);
    ValueAt(hash, a, now, n, prev, 12);
  }

  lemma {:induction false} ReceiptCarries(hash: string -> Digest, a: Args, now: string, n: int, prev: Option<Value>)
    ensures Carries(hash, Receipt(hash, a, now, n, prev).fields, a)
  {
    hide KEYS, Receipt, Sha256, CountOf, Find, IntText, CarriesTexts;
    NameKeys();
    ReceiptCarriesTexts(hash, a, now, n, prev);
    ValueAt(hash, a, now, n, prev, 4);
    ValueAt(hash, a, now, n, prev, 5);
    ValueAt(hash, a, now, n, prev, 6);
    ValueAt(hash, a, now, n, prev, 7);
    ValueAt(hash, a, now, n, prev, 8);
    ValueAt(hash, a, now, n, prev, 16);
  }

  /** What an emitter says of the entry itself: its id and kind, when it was issued and where it stands,
    and that the completion stayed on the device. */
  ghost predicate Stamped(fields: seq<Field>, a: Args, now: string, n: int) {
    && Find(fields, "id") == Some(Str("urn:srcos:inference-receipt:" + a.task + "-" + IntText(n)))
    && Find(fields, "type") == Some(Str("InferenceReceipt"))
    && Find(fields, "specVersion") == Some(Str("2.1.0"))
    && Find(fields, "issuedAt") == Some(Str(now))
    && Find(fields, "ledgerSeq") == Some(Num(n))
    && Find(fields, "dataResidencyClass") == Some(Str("on_device_only"))
    && Find(fields, "escalatedFrom") == Some(Null)
    && Find(fields, "escalationChain") == Some(Arr([]))
  }

  lemma {:induction false} StampKeys()
    ensures |KEYS| == 19 && KEYS[0] == "id" && KEYS[1] == "type" && KEYS[2] == "specVersion" && KEYS[3] == "issuedAt"
    ensures KEYS[13] == "dataResidencyClass" && KEYS[14] == "escalatedFrom" && KEYS[15] == "escalationChain"
    ensures KEYS[17] == "ledgerSeq"
  {
  }

  lemma {:induction false} ReceiptStamped(hash: string -> Digest, a: Args, now: string, n: int, prev: Option<Value>)
    ensures Stamped(Receipt(hash, a, now, n, prev).fields, a, now, n)
  {
    hide KEYS, Receipt, Sha256, CountOf, Find, IntText;
    StampKeys();
    ValueAt(hash, a, now, n, prev, 0);
    ValueAt(hash, a, now, n, prev, 1);
    ValueAt(hash, a, now, n, prev, 2);
    ValueAt(hash, a, now, n, prev, 3);
    ValueAt(hash, a, now, n, prev, 13);
    ValueAt(hash, a, now, n, prev, 14);
    ValueAt(hash, a, now, n, prev, 15);
    ValueAt(hash, a, now, n, prev, 17);
  }

  /** Under a last entry - none, or any JSON value - an emit goes through exactly when the value is
    falsy or an object whose `ledgerSeq` is an integer or a bool, which counts as 0 or 1. */
  predicate Continues(prev: Option<Value>, n: int) {
    match prev
    case None => n == 0
    case Some(v) =>
      if !v.Truthy() then n == 0
      else v.Obj? && (Find(v.fields, "ledgerSeq") == Some(Num(n - 1))
                      || (n == 1 && Find(v.fields, "ledgerSeq") == Some(Bool(false)))
                      || (n == 2 && Find(v.fields, "ledgerSeq") == Some(Bool(true))))
  }

  /** Entry `n` behind this last entry: stamped so, and linked to it from number 1 on. */
  ghost predicate Follows(hash: string -> Digest, prev: Option<Value>, fields: seq<Field>, a: Args, now: string,
                          n: int)
  {
    && Continues(prev, n) && Stamped(fields, a, now, n)
    && Find(fields, "ledgerPrevHash") ==
       if n >= 1 && prev.Some? then Some(Str("sha256:" + hash(Canonical(prev.value)))) else None
  }

  /** What any emit that goes through returns: the call's arguments, the entry's own data, the number
    after the last entry's, and from number 1 on the hash of the last entry as it was read. */
  lemma {:induction false} ReceiptIs(hash: string -> Digest, file: string, a: Args, now: string)
    ensures match NextReceipt(hash, file, a, now)
            case Success(r) =>
              && r.Obj? && Distinct(r.fields) && Carries(hash, r.fields, a)
              && LastEntry(file).Success?
              && exists n :: Follows(hash, LastEntry(file).value, r.fields, a, now, n)
            case Raised(TailNotJson) => LastEntry(file) == Raised(TailNotJson)
            case Raised(TailHasNoSeq) => LastEntry(file).Success? && forall n :: !Continues(LastEntry(file).value, n)
  {
    hide LastEntry, Receipt, Carries, Stamped, Find, Canonical;
    var last := LastEntry(file);
    if last.Success? {
      NextSeqIs(last.value);
      hide NextSeq, Continues;
      if NextSeq(last.value).Success? {
        var n := NextSeq(last.value).value;
        ReceiptCarries(hash, a, now, n, last.value);
        ReceiptStamped(hash, a, now, n, last.value);
        ReceiptKeys(hash, a, now, n, last.value);
        ReceiptLinks(hash, a, now, n, last.value);
        assert Follows(hash, last.value, Receipt(hash, a, now, n, last.value).fields, a, now, n);
      }
    } else {
      OnlyBadTail(file);
    }
  }

  lemma {:induction false} OnlyBadTail(file: string)
    ensures LastEntry(file).Raised? ==> LastEntry(file).why.TailNotJson?
  {
    hide Loads, EmitterLines;
  }

  lemma {:induction false} NextSeqIs(prev: Option<Value>)
    ensures forall n :: Continues(prev, n) <==> NextSeq(prev) == Success(n)
    ensures NextSeq(prev).Raised? ==> NextSeq(prev).why.TailHasNoSeq?
  {
    hide Find;
  }

  lemma {:induction false} ReceiptLinks(hash: string -> Digest, a: Args, now: string, n: int, prev: Option<Value>)
    ensures Receipt(hash, a, now, n, prev).Obj?
    ensures Find(Receipt(hash, a, now, n, prev).fields, "ledgerPrevHash") ==
            if n >= 1 && prev.Some? then Some(Str("sha256:" + hash(Canonical(prev.value)))) else None
  {
    hide Canonical, Find, KEYS, BaseFields;
    var fields := Receipt(hash, a, now, n, prev).fields;
    BaseKeys(hash, a, now, n);
    ReceiptKeys(hash, a, now, n, prev);
    if n >= 1 && prev.Some? {
      ReceiptLookup(hash, a, now, n, prev, 18);
    } else {
      FindNone(fields, "ledgerPrevHash");
    }
  }

  // ---------- an id names one entry ----------

  lemma {:induction false} NoDash(d: string, e: string, s: string, t: string)
    requires s + ("-" + d) == t + ("-" + e)
    requires (forall i :: 0 <= i < |d| ==> d[i] != '-') && (forall i :: 0 <= i < |e| ==> e[i] != '-')
    ensures s == t && d == e
  {
    var x, y := s + ("-" + d), t + ("-" + e);
    assert x[|s|] == '-' && y[|t|] == '-';
    assert forall i :: |s| < i < |x| ==> x[i] == d[i - |s| - 1] != '-';
    assert forall i :: |t| < i < |y| ==> y[i] == e[i - |t| - 1] != '-';
    assert |s| == |t|;
    assert x[..|s|] == s && y[..|t|] == t && x[|s| + 1..] == d && y[|t| + 1..] == e;
  }

  /** Two entries with one id are one entry: task and position can be read off it. */
  lemma {:induction false} IdNamesEntry(task: string, n: nat, other: string, m: nat)
    requires "urn:srcos:inference-receipt:" + task + "-" + IntText(n) ==
             "urn:srcos:inference-receipt:" + other + "-" + IntText(m)
    ensures task == other && n == m
  {
    NatTextIsDecimal(n);
    NatTextIsDecimal(m);
    hide DigitsValue, NatText;
    var prefix := "urn:srcos:inference-receipt:";
    var d, e := NatText(n), NatText(m);
    Associative(prefix + task, "-", d);
    Associative(prefix + other, "-", e);
    NoDash(d, e, prefix + task, prefix + other);
    assert (prefix + task)[|prefix|..] == task && (prefix + other)[|prefix|..] == other;
  }

  lemma {:induction false} ChainFieldValid(hash: string -> Digest, prev: Value)
    ensures FieldValid(ChainField(hash, prev).key, ChainField(hash, prev).value) && Flat(ChainField(hash, prev).value)
  {
    HashMeets(hash, Canonical(prev));
    KeysDistinct();
    assert KEYS[18] == "ledgerPrevHash" && KeyKind(18) == Nullable(Hash);
    hide Canonical, Sha256, KindOf, KEYS;
    KindOfKey(18);
  }

  /** Every required property is among the 18 an emitter fills in. */
  lemma {:induction false} RequiredIsFilled(i: nat) returns (j: nat)
    requires i < |REQUIRED|
    ensures j < 18 < |KEYS| && KEYS[j] == REQUIRED[i]
  {
    j := [0, 1, 2, 3, 4, 5, 6, 8, 9, 11, 13, 17][i];
  }

  lemma {:induction false} FlatIsPlainAndNormal(v: Value)
    requires Flat(v)
    ensures Plain(v) && Norm(v) == v
  {
  }

  /** Validity depends on the fields as a set and on the lookups alone. */
  lemma {:induction false} ValidByLookups(f: seq<Field>, g: seq<Field>)
    requires Valid(Obj(f))
    requires forall key :: Find(g, key) == Find(f, key)
    requires forall i :: 0 <= i < |g| ==> g[i] in f
    ensures Valid(Obj(g))
  {
    hide FieldValid, Find, Meets, REQUIRED;
    assert forall i :: 0 <= i < |REQUIRED| ==> Find(g, REQUIRED[i]) == Find(f, REQUIRED[i]);
    assert OffDeviceRule(g) == OffDeviceRule(f);
    assert OnDeviceRule(g) == OnDeviceRule(f);
    assert ChainRule(g) == ChainRule(f);
  }

  /** Sorting the keys of a flat object changes neither its lookups nor its validity. */
  lemma {:induction false} ValidWhenSorted(fields: seq<Field>)
    requires Distinct(fields) && FlatFields(fields) && Valid(Obj(fields))
    ensures Norm(Obj(fields)).Obj? && Valid(Norm(Obj(fields)))
    ensures forall key :: Find(Norm(Obj(fields)).fields, key) == Find(fields, key)
  {
    hide Valid, Flat, Find, Sort;
    forall i | 0 <= i < |fields| ensures NormFields(fields)[i] == fields[i] { FlatIsPlainAndNormal(fields[i].value); }
    assert NormFields(fields) == fields;
    var sorted := Sort(fields);
    forall key ensures Find(sorted, key) == Find(fields, key) { SortFind(fields, key); }
    SortPermutes(fields);
    forall i | 0 <= i < |sorted| ensures sorted[i] in fields {
      assert sorted[i] in multiset(fields);
    }
    ValidByLookups(fields, sorted);
  }
}
