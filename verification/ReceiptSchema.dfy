/** The InferenceReceipt schema in its own words: what each property may be, and what the whole must have. */
module ReceiptSchema {
  import opened Json
  import opened Receipts

  // ---------- the vocabulary of the schema ----------

  predicate OneOf(v: Value, names: seq<string>) { v.Str? && exists i :: 0 <= i < |names| && names[i] == v.s }

  predicate StartsWith(v: Value, prefix: string) { v.Str? && |prefix| <= |v.s| && v.s[..|prefix|] == prefix }

  /** `^sha256:[a-fA-F0-9]{64}$`, where `$` also matches before a final line end. */
  ghost predicate IsDigest(v: Value) {
    v.Str? && exists digits, end :: DigestParts(v.s, digits, end)
  }

  predicate DigestParts(s: string, digits: string, end: string) {
    && s == "sha256:" + digits + end && |digits| == 64 && (end == "" || end == "\n")
    && forall i :: 0 <= i < 64 ==> '0' <= digits[i] <= '9' || 'a' <= digits[i] <= 'f' || 'A' <= digits[i] <= 'F'
  }

  predicate Natural(v: Value) { v.Num? && v.n >= 0 }

  ghost predicate AllStart(v: Value, prefix: string) {
    v.Arr? && forall i :: 0 <= i < |v.items| ==> StartsWith(v.items[i], prefix)
  }

  lemma {:induction false} HashRefIs(s: string)
    ensures IsHashRef(s) <==> IsDigest(Str(s))
  {
    if IsHashRef(s) {
      var digits, end := s[7..71], s[71..];
      assert s == s[..7] + digits + end;
      assert forall i :: 0 <= i < 64 ==> digits[i] == s[7 + i];
      assert DigestParts(s, digits, end);
    }
    if digits, end :| DigestParts(s, digits, end) {
      assert s[..7] == "sha256:" && forall i :: 7 <= i < 71 ==> s[i] == digits[i - 7];
    }
  }

  lemma {:induction false} NamesAre(v: Value, names: seq<string>)
    ensures Meets(Name(names), v) <==> OneOf(v, names)
  {
  }

  lemma {:induction false} PrefixIs(v: Value, prefix: string)
    ensures Meets(Ref(prefix), v) <==> StartsWith(v, prefix)
  {
  }

  lemma {:induction false} HashIs(v: Value)
    ensures Meets(Hash, v) <==> IsDigest(v)
  {
    if v.Str? { HashRefIs(v.s); }
  }

  // ---------- which property is of which kind ----------

  lemma {:induction false} NotAKey(keys: seq<string>, key: string)
    requires forall i :: 0 <= i < |keys| ==> keys[i] != key
    ensures IndexOf(keys, key) == |keys|
  {
    if keys != [] { NotAKey(keys[1..], key); }
  }

  lemma {:induction false} EmitterKinds()
    ensures KindOf("id") == Ref("urn:srcos:inference-receipt:") && KindOf("type") == Tag
    ensures KindOf("specVersion") == Text && KindOf("issuedAt") == Text && KindOf("task") == Text
    ensures KindOf("providerDaemon") == Name(DAEMONS) && KindOf("tier") == Name(TIERS)
    ensures KindOf("baseModelDigest") == Hash && KindOf("inputHash") == Hash && KindOf("outputHash") == Hash
    ensures KindOf("tokenizerDigest") == Nullable(Hash) && KindOf("ledgerPrevHash") == Nullable(Hash)
    ensures KindOf("inputTokenCount") == Nullable(Count) && KindOf("outputTokenCount") == Nullable(Count)
    ensures KindOf("dataResidencyClass") == Name(RESIDENCIES) && KindOf("escalatedFrom") == Nullable(Name(ESCALATED))
    ensures KindOf("escalationChain") == EscalationUrns && KindOf("computeDevice") == Nullable(Name(DEVICES))
    ensures KindOf("ledgerSeq") == Count
  {
    assert |KEYS| == 19;
    assert KEYS[0] == "id";
    assert KEYS[1] == "type";
    assert KEYS[2] == "specVersion";
    assert KEYS[3] == "issuedAt";
    assert KEYS[4] == "providerDaemon";
    assert KEYS[5] == "tier";
    assert KEYS[6] == "baseModelDigest";
    assert KEYS[7] == "tokenizerDigest";
    assert KEYS[8] == "task";
    assert KEYS[9] == "inputHash";
    assert KEYS[10] == "inputTokenCount";
    assert KEYS[11] == "outputHash";
    assert KEYS[12] == "outputTokenCount";
    assert KEYS[13] == "dataResidencyClass";
    assert KEYS[14] == "escalatedFrom";
    assert KEYS[15] == "escalationChain";
    assert KEYS[16] == "computeDevice";
    assert KEYS[17] == "ledgerSeq";
    assert KEYS[18] == "ledgerPrevHash";
    hide KindOf, KEYS;
    KindOfKey(0);
    KindOfKey(1);
    KindOfKey(2);
    KindOfKey(3);
    KindOfKey(4);
    KindOfKey(5);
    KindOfKey(6);
    KindOfKey(7);
    KindOfKey(8);
    KindOfKey(9);
    KindOfKey(10);
    KindOfKey(11);
    KindOfKey(12);
    KindOfKey(13);
    KindOfKey(14);
    KindOfKey(15);
    KindOfKey(16);
    KindOfKey(17);
    KindOfKey(18);
  }

  lemma {:induction false} OtherKinds(key: string)
    requires key in OTHERS
    ensures KindOf(key) == OtherKind(key)
  {
    OthersAreOther(key);
    hide KEYS, OtherKind, OTHERS;
    NotAKey(KEYS, key);
  }

  /** The properties that an emitter leaves out. */
  const OTHERS := ["requestingAgentRef", "requestingAgentClass", "capabilityLeaseRef", "providerRef", "adapterDigest",
    "modelCarryRef", "modelResidencyRef", "confidence", "confidenceMethod", "latencyMs", "evidenceHash", "evidenceRefs"]

  lemma {:induction false} OthersAreOther(key: string)
    requires key in OTHERS
    ensures forall i :: 0 <= i < |KEYS| ==> KEYS[i] != key
  {
  }

  // ---------- the properties ----------

  /** What the schema allows under the keys an emitter fills in. */
  lemma {:induction false} EmitterProperties(v: Value)
    ensures FieldValid("id", v) <==> StartsWith(v, "urn:srcos:inference-receipt:")
    ensures FieldValid("type", v) <==> v == Str("InferenceReceipt")
    ensures FieldValid("specVersion", v) <==> v.Str?
    ensures FieldValid("issuedAt", v) <==> v.Str?
    ensures FieldValid("providerDaemon", v) <==> OneOf(v, ["inferenced", "embeddingd", "visiond", "distilld"])
    ensures FieldValid("tier", v) <==> OneOf(v, ["T0", "T1", "T2", "T3", "T4"])
    ensures FieldValid("baseModelDigest", v) <==> IsDigest(v)
    ensures FieldValid("tokenizerDigest", v) <==> v.Null? || IsDigest(v)
    ensures FieldValid("task", v) <==> v.Str?
    ensures FieldValid("inputHash", v) <==> IsDigest(v)
    ensures FieldValid("inputTokenCount", v) <==> v.Null? || Natural(v)
    ensures FieldValid("outputHash", v) <==> IsDigest(v)
    ensures FieldValid("outputTokenCount", v) <==> v.Null? || Natural(v)
    ensures FieldValid("dataResidencyClass", v) <==>
            OneOf(v, ["on_device_only", "sovereign_cluster", "external_permitted"])
    ensures FieldValid("escalatedFrom", v) <==> v.Null? || OneOf(v, ["T0", "T1", "T2", "T3"])
    ensures FieldValid("escalationChain", v) <==> AllStart(v, "urn:srcos:escalation-decision:")
    ensures FieldValid("computeDevice", v) <==> v.Null? || OneOf(v, ["ane", "gpu", "cpu", "npu", "remote"])
    ensures FieldValid("ledgerSeq", v) <==> Natural(v)
    ensures FieldValid("ledgerPrevHash", v) <==> v.Null? || IsDigest(v)
  {
    EmitterKinds();
    hide KindOf, IsDigest, OneOf, StartsWith, AllStart, Meets;
    MeetsSimple(v);
    HashIs(v);
    PrefixIs(v, "urn:srcos:inference-receipt:");
    NamesAre(v, DAEMONS);
    NamesAre(v, TIERS);
    NamesAre(v, RESIDENCIES);
    NamesAre(v, ESCALATED);
    NamesAre(v, DEVICES);
  }

  lemma {:induction false} MeetsSimple(v: Value)
    ensures Meets(Tag, v) <==> v == Str("InferenceReceipt")
    ensures Meets(Text, v) <==> v.Str?
    ensures Meets(Count, v) <==> Natural(v)
    ensures forall kind :: Meets(Nullable(kind), v) <==> v.Null? || Meets(kind, v)
    ensures Meets(EscalationUrns, v) <==> AllStart(v, "urn:srcos:escalation-decision:")
    ensures Meets(Texts, v) <==> v.Arr? && forall i :: 0 <= i < |v.items| ==> v.items[i].Str?
    ensures Meets(Confidence, v) <==> v == Num(0) || v == Num(1)
    ensures !Meets(Unknown, v)
  {
    hide IsHashRef;
    forall kind ensures Meets(Nullable(kind), v) <==> v.Null? || Meets(kind, v) { NullableIs(kind, v); }
  }

  lemma {:induction false} NullableIs(kind: Kind, v: Value)
    ensures Meets(Nullable(kind), v) <==> v.Null? || Meets(kind, v)
  {
  }

  /** What it allows under the keys no emitter here fills in; a confidence that is a float is not modelled. */
  lemma {:induction false} OtherProperties(v: Value)
    ensures FieldValid("requestingAgentRef", v) <==> v.Null? || StartsWith(v, "urn:srcos:agent-passport:")
    ensures FieldValid("requestingAgentClass", v) <==>
            v.Null? || OneOf(v, ["system_core", "intelligence_automation", "app_helper", "legacy_bridge",
              "third_party"])
    ensures FieldValid("capabilityLeaseRef", v) <==> v.Null? || StartsWith(v, "urn:srcos:lease:")
    ensures FieldValid("providerRef", v) <==> v.Null? || StartsWith(v, "urn:srcos:inference-provider:")
    ensures FieldValid("adapterDigest", v) <==> v.Null? || IsDigest(v)
    ensures FieldValid("modelCarryRef", v) <==> v.Null? || StartsWith(v, "urn:srcos:model-carry-ref:")
    ensures FieldValid("modelResidencyRef", v) <==> v.Null? || StartsWith(v, "urn:srcos:model-residency:")
    ensures FieldValid("confidence", v) <==> v.Null? || v == Num(0) || v == Num(1)
    ensures FieldValid("confidenceMethod", v) <==>
            v.Null? || OneOf(v, ["logit-entropy", "verbalized", "calibration-head", "downstream-validation", "none"])
    ensures FieldValid("latencyMs", v) <==> v.Null? || Natural(v)
    ensures FieldValid("evidenceHash", v) <==> v.Null? || IsDigest(v)
    ensures FieldValid("evidenceRefs", v) <==> v.Arr? && forall i :: 0 <= i < |v.items| ==> v.items[i].Str?
  {
    OthersKinds();
    hide KindOf, IsDigest, OneOf, StartsWith, AllStart, Meets;
    MeetsSimple(v);
    HashIs(v);
    PrefixIs(v, "urn:srcos:agent-passport:");
    PrefixIs(v, "urn:srcos:lease:");
    PrefixIs(v, "urn:srcos:inference-provider:");
    PrefixIs(v, "urn:srcos:model-carry-ref:");
    PrefixIs(v, "urn:srcos:model-residency:");
    NamesAre(v, AGENT_CLASSES);
    NamesAre(v, CONFIDENCE_METHODS);
  }

  lemma {:induction false} OthersKinds()
    ensures KindOf("requestingAgentRef") == Nullable(Ref("urn:srcos:agent-passport:"))
    ensures KindOf("requestingAgentClass") == Nullable(Name(AGENT_CLASSES))
    ensures KindOf("capabilityLeaseRef") == Nullable(Ref("urn:srcos:lease:"))
    ensures KindOf("providerRef") == Nullable(Ref("urn:srcos:inference-provider:"))
    ensures KindOf("adapterDigest") == Nullable(Hash) && KindOf("evidenceHash") == Nullable(Hash)
    ensures KindOf("modelCarryRef") == Nullable(Ref("urn:srcos:model-carry-ref:"))
    ensures KindOf("modelResidencyRef") == Nullable(Ref("urn:srcos:model-residency:"))
    ensures KindOf("confidence") == Nullable(Confidence) && KindOf("latencyMs") == Nullable(Count)
    ensures KindOf("confidenceMethod") == Nullable(Name(CONFIDENCE_METHODS)) && KindOf("evidenceRefs") == Texts
  {
    OtherValues();
    MoreOtherValues();
    var o := OTHERS;
    assert o[0] == "requestingAgentRef" && o[1] == "requestingAgentClass" && o[2] == "capabilityLeaseRef";
    assert o[3] == "providerRef" && o[4] == "adapterDigest" && o[5] == "modelCarryRef" && o[6] == "modelResidencyRef";
    assert o[7] == "confidence" && o[8] == "confidenceMethod" && o[9] == "latencyMs" && o[10] == "evidenceHash";
    assert o[11] == "evidenceRefs" && |o| == 12;
    hide KindOf, OtherKind, OTHERS;
    forall i | 0 <= i < 12 ensures KindOf(o[i]) == OtherKind(o[i]) { OtherKinds(o[i]); }
  }

  lemma {:induction false} OtherValues()
    ensures OtherKind("requestingAgentRef") == Nullable(Ref("urn:srcos:agent-passport:"))
    ensures OtherKind("requestingAgentClass") == Nullable(Name(AGENT_CLASSES))
    ensures OtherKind("capabilityLeaseRef") == Nullable(Ref("urn:srcos:lease:"))
    ensures OtherKind("providerRef") == Nullable(Ref("urn:srcos:inference-provider:"))
    ensures OtherKind("adapterDigest") == Nullable(Hash) && OtherKind("evidenceHash") == Nullable(Hash)
  {
  }

  lemma {:induction false} MoreOtherValues()
    ensures OtherKind("modelCarryRef") == Nullable(Ref("urn:srcos:model-carry-ref:"))
    ensures OtherKind("modelResidencyRef") == Nullable(Ref("urn:srcos:model-residency:"))
    ensures OtherKind("confidence") == Nullable(Confidence) && OtherKind("latencyMs") == Nullable(Count)
    ensures OtherKind("confidenceMethod") == Nullable(Name(CONFIDENCE_METHODS)) && OtherKind("evidenceRefs") == Texts
  {
  }

  /** There are no additional properties. */
  lemma {:induction false} NoOtherProperties(key: string, v: Value)
    requires key !in OTHERS && forall i :: 0 <= i < |KEYS| ==> KEYS[i] != key
    ensures !FieldValid(key, v)
  {
    OnlyOthers(key);
    hide KEYS, OtherKind, OTHERS, Meets;
    NotAKey(KEYS, key);
    MeetsSimple(v);
  }

  lemma {:induction false} OnlyOthers(key: string)
    requires key !in OTHERS
    ensures OtherKind(key) == Unknown
  {
    var o := OTHERS;
    assert o[0] == "requestingAgentRef" && o[1] == "requestingAgentClass" && o[2] == "capabilityLeaseRef";
    assert o[3] == "providerRef" && o[4] == "adapterDigest" && o[5] == "modelCarryRef" && o[6] == "modelResidencyRef";
    assert o[7] == "confidence" && o[8] == "confidenceMethod" && o[9] == "latencyMs" && o[10] == "evidenceHash";
    assert o[11] == "evidenceRefs";
    hide OTHERS;
  }

  // ---------- the whole ----------

  /** What must be there, and the three conditional rules: an off-device completion carries a lease and
    a chain and was escalated from a tier below; an on-device one was not escalated; every entry but
    the first is linked. */
  ghost predicate Conditions(fields: seq<Field>) {
    && (forall i :: 0 <= i < 12 ==>
          Find(fields, ["id", "type", "specVersion", "issuedAt", "providerDaemon", "tier", "baseModelDigest", "task",
            "inputHash", "outputHash", "dataResidencyClass", "ledgerSeq"][i]).Some?)
    && (Find(fields, "dataResidencyClass") == Some(Str("sovereign_cluster"))
        || Find(fields, "dataResidencyClass") == Some(Str("external_permitted")) ==>
          && Find(fields, "capabilityLeaseRef").Some? && Find(fields, "capabilityLeaseRef").value.Str?
          && Find(fields, "escalatedFrom").Some?
          && OneOf(Find(fields, "escalatedFrom").value, ["T0", "T1", "T2", "T3"])
          && Find(fields, "escalationChain").Some? && Find(fields, "escalationChain").value != Arr([]))
    && (Find(fields, "dataResidencyClass") == Some(Str("on_device_only")) ==>
          Find(fields, "escalatedFrom").None? || Find(fields, "escalatedFrom").value == Null)
    && (forall n :: Find(fields, "ledgerSeq") == Some(Num(n)) && n >= 1 ==>
          Find(fields, "ledgerPrevHash").Some? && Find(fields, "ledgerPrevHash").value.Str?)
  }

  /** A value meets the schema when its properties do, and the conditions hold. */
  lemma {:induction false} ValidIff(v: Value)
    ensures Valid(v) <==>
            && v.Obj? && Conditions(v.fields)
            && forall i :: 0 <= i < |v.fields| ==> FieldValid(v.fields[i].key, v.fields[i].value)
  {
    hide FieldValid, Find, OneOf;
    if v.Obj? { RulesIff(v.fields); }
  }

  lemma {:induction false} RulesIff(fields: seq<Field>)
    ensures (forall i :: 0 <= i < |REQUIRED| ==> Find(fields, REQUIRED[i]).Some?) <==>
            forall i :: 0 <= i < 12 ==>
              Find(fields, ["id", "type", "specVersion", "issuedAt", "providerDaemon", "tier", "baseModelDigest",
                "task", "inputHash", "outputHash", "dataResidencyClass", "ledgerSeq"][i]).Some?
    ensures OffDeviceRule(fields) <==>
            (Find(fields, "dataResidencyClass") == Some(Str("sovereign_cluster"))
             || Find(fields, "dataResidencyClass") == Some(Str("external_permitted")) ==>
               && Find(fields, "capabilityLeaseRef").Some? && Find(fields, "capabilityLeaseRef").value.Str?
               && Find(fields, "escalatedFrom").Some?
               && OneOf(Find(fields, "escalatedFrom").value, ["T0", "T1", "T2", "T3"])
               && Find(fields, "escalationChain").Some? && Find(fields, "escalationChain").value != Arr([]))
    ensures OnDeviceRule(fields) <==>
            (Find(fields, "dataResidencyClass") == Some(Str("on_device_only")) ==>
               Find(fields, "escalatedFrom").None? || Find(fields, "escalatedFrom").value == Null)
    ensures ChainRule(fields) <==>
            forall n :: Find(fields, "ledgerSeq") == Some(Num(n)) && n >= 1 ==>
              Find(fields, "ledgerPrevHash").Some? && Find(fields, "ledgerPrevHash").value.Str?
  {
    hide Find, OneOf;
    if Find(fields, "escalatedFrom").Some? { NamesAre(Find(fields, "escalatedFrom").value, ESCALATED); }
  }
}
