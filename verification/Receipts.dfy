/** The InferenceReceipt schema, written out as a predicate on JSON values. */
module Receipts {
  import opened Json

  predicate IsLowerHex(c: char) { '0' <= c <= '9' || 'a' <= c <= 'f' }

  predicate IsHex(c: char) { IsLowerHex(c) || 'A' <= c <= 'F' }

  /** A SHA-256 digest in hexadecimal; the hash itself is a parameter everywhere. */
  type Digest = d: string | |d| == 64 && forall i :: 0 <= i < |d| ==> IsLowerHex(d[i])
    witness seq(64, _ => '0')

  function Sha256(hash: string -> Digest, s: string): string {
    "sha256:" + hash(s)
  }

  /** The pattern `^sha256:[a-fA-F0-9]{64}$`; Python's `$` also matches before a final line end. */
  predicate IsHashRef(s: string) {
    && (|s| == 71 || (|s| == 72 && s[71] == '\n'))
    && s[..7] == "sha256:"
    && forall i :: 7 <= i < 71 ==> IsHex(s[i])
  }

  const DAEMONS := ["inferenced", "embeddingd", "visiond", "distilld"]
  const TIERS := ["T0", "T1", "T2", "T3", "T4"]
  const DEVICES := ["ane", "gpu", "cpu", "npu", "remote"]
  const AGENT_CLASSES := ["system_core", "intelligence_automation", "app_helper", "legacy_bridge", "third_party"]
  const CONFIDENCE_METHODS := ["logit-entropy", "verbalized", "calibration-head", "downstream-validation", "none"]
  const ESCALATED := ["T0", "T1", "T2", "T3"]
  const RESIDENCIES := ["on_device_only", "sovereign_cluster", "external_permitted"]

  /** What the schema asks of a property. */
  datatype Kind =
    | Tag | Text | Name(names: seq<string>) | Hash | Count
    | Ref(prefix: string)           // a string with this prefix
    | Nullable(kind: Kind)
    | Confidence | EscalationUrns | Texts
    | Unknown                       // `additionalProperties` is false

  /** The properties an emitter fills in, in its order. */
  const KEYS := [
    "id", "type", "specVersion", "issuedAt", "providerDaemon", "tier", "baseModelDigest", "tokenizerDigest", "task",
    "inputHash", "inputTokenCount", "outputHash", "outputTokenCount", "dataResidencyClass", "escalatedFrom",
    "escalationChain", "computeDevice", "ledgerSeq", "ledgerPrevHash"]

  function KeyKind(i: int): Kind {
    match i
    case 0 => Ref("urn:srcos:inference-receipt:")
    case 1 => Tag
    case 2 => Text
    case 3 => Text
    case 4 => Name(DAEMONS)
    case 5 => Name(TIERS)
    case 6 => Hash
    case 7 => Nullable(Hash)
    case 8 => Text
    case 9 => Hash
    case 10 => Nullable(Count)
    case 11 => Hash
    case 12 => Nullable(Count)
    case 13 => Name(RESIDENCIES)
    case 14 => Nullable(Name(ESCALATED))
    case 15 => EscalationUrns
    case 16 => Nullable(Name(DEVICES))
    case 17 => Count
    case 18 => Nullable(Hash)
    case _ => Unknown
  }

  /** The properties no emitter here fills in. */
  function OtherKind(key: string): Kind {
    if key == "adapterDigest" || key == "evidenceHash" then Nullable(Hash)
    else if key == "latencyMs" then Nullable(Count)
    else if key == "confidence" then Nullable(Confidence)
    else if key == "confidenceMethod" then Nullable(Name(CONFIDENCE_METHODS))
    else if key == "requestingAgentRef" then Nullable(Ref("urn:srcos:agent-passport:"))
    else if key == "requestingAgentClass" then Nullable(Name(AGENT_CLASSES))
    else if key == "capabilityLeaseRef" then Nullable(Ref("urn:srcos:lease:"))
    else if key == "providerRef" then Nullable(Ref("urn:srcos:inference-provider:"))
    else if key == "modelCarryRef" then Nullable(Ref("urn:srcos:model-carry-ref:"))
    else if key == "modelResidencyRef" then Nullable(Ref("urn:srcos:model-residency:"))
    else if key == "evidenceRefs" then Texts
    else Unknown
  }

  /** Position of a key, or the length. */
  function IndexOf(keys: seq<string>, key: string): nat {
    if keys == [] || keys[0] == key then 0 else 1 + IndexOf(keys[1..], key)
  }

  /** What the schema asks of the property `key`. */
  function KindOf(key: string): Kind {
    var i := IndexOf(KEYS, key);
    if i < |KEYS| then KeyKind(i) else OtherKind(key)
  }

  lemma {:induction false} KeysDistinct()
    ensures |KEYS| == 19
    ensures forall i, j :: 0 <= i < j < |KEYS| ==> KEYS[i] != KEYS[j]
  {
  }

  lemma {:induction false} IndexOfKey(keys: seq<string>, i: nat)
    requires i < |keys| && forall k, j :: 0 <= k < j < |keys| ==> keys[k] != keys[j]
    ensures IndexOf(keys, keys[i]) == i
  {
    if i > 0 {
      assert keys[i] == keys[1..][i - 1];
      IndexOfKey(keys[1..], i - 1);
    }
  }

  lemma {:induction false} KindOfKey(i: nat)
    requires i < |KEYS|
    ensures KindOf(KEYS[i]) == KeyKind(i)
  {
    hide KEYS, KeyKind;
    KeysDistinct();
    IndexOfKey(KEYS, i);
  }

  predicate Meets(kind: Kind, v: Value) {
    match kind
    case Tag => v == Str("InferenceReceipt")
    case Text => v.Str?
    case Name(names) => v.Str? && v.s in names
    case Hash => v.Str? && IsHashRef(v.s)
    case Count => v.Num? && v.n >= 0
    case Ref(prefix) => v.Str? && prefix <= v.s
    case Nullable(k) => v.Null? || Meets(k, v)
    case Confidence => v.Num? && 0 <= v.n <= 1
    case EscalationUrns =>
      v.Arr? && forall i :: 0 <= i < |v.items| ==> v.items[i].Str? && "urn:srcos:escalation-decision:" <= v.items[i].s
    case Texts => v.Arr? && forall i :: 0 <= i < |v.items| ==> v.items[i].Str?
    case Unknown => false
  }

  /** The `properties` of the schema. */
  predicate FieldValid(key: string, v: Value) {
    Meets(KindOf(key), v)
  }

  const REQUIRED := [
    "id", "type", "specVersion", "issuedAt", "providerDaemon", "tier", "baseModelDigest", "task",
    "inputHash", "outputHash", "dataResidencyClass", "ledgerSeq"]

  /** SEAM-015: off-device completions carry a lease and a nonempty escalation chain. */
  predicate OffDeviceRule(fields: seq<Field>) {
    var residency := Find(fields, "dataResidencyClass");
    residency == Some(Str("sovereign_cluster")) || residency == Some(Str("external_permitted")) ==>
      && (match Find(fields, "capabilityLeaseRef") case Some(Str(_)) => true case _ => false)
      && (match Find(fields, "escalatedFrom") case Some(v) => Meets(Name(ESCALATED), v) case None => false)
      && (match Find(fields,
        "escalationChain") case Some(Arr(items)) => items != [] case Some(_) => true case None => false)
  }

  /** An on-device completion was not escalated. */
  predicate OnDeviceRule(fields: seq<Field>) {
    Find(fields, "dataResidencyClass") == Some(Str("on_device_only")) ==>
      Find(fields, "escalatedFrom") in {None, Some(Null)}
  }

  /** Every entry but the first is chained. */
  predicate ChainRule(fields: seq<Field>) {
    match Find(fields, "ledgerSeq")
    case Some(Num(n)) => n >= 1 ==> (match Find(fields, "ledgerPrevHash") case Some(Str(_)) => true case _ => false)
    case _ => true
  }

  predicate Valid(v: Value) {
    && v.Obj?
    && (forall i :: 0 <= i < |v.fields| ==> FieldValid(v.fields[i].key, v.fields[i].value))
    && (forall i :: 0 <= i < |REQUIRED| ==> Find(v.fields, REQUIRED[i]).Some?)
    && OffDeviceRule(v.fields) && OnDeviceRule(v.fields) && ChainRule(v.fields)
  }
}
