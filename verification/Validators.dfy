/** The two validators of workstation contracts, `validate_contract` and `validate_workspace_ops`,
  and how far they agree. The regular expressions are parameters, shared by both; conformance to
  the JSON schemas is part of the document. */
module Validators {
  import opened Json
  import Receipts

  datatype Backend = Pixi | Container(image: string) | ContainerWithoutImage

  datatype Lane = Lane(name: string, backend: Backend, emit: set<string>, runs: seq<string>)

  /** `labels` of the metadata, and the lanes. `runs` has "" for a step that runs nothing. */
  datatype Contract = Contract(labels: map<string, string>, lanes: seq<Lane>)

  /** A JSON document on the command line: a contract of the v0.1 schema, one of its kind that fails
    it, an agent passport, a fixture of a workspace-ops schema, or anything else. The second and the
    third may name a workspace-ops schema as well; `conforms` says whether they meet it. */
  datatype Document =
    | Conforming(underExamples: bool, contract: Contract)
    | NonConforming(conforms: Option<bool>, contract: Contract)
    | Passport(conforms: Option<bool>, agentClass: string, claimsSystem: bool)
    | Fixture(conforming: bool)
    | Foreign

  /** The forbidden patterns: of agent-machine use, and of workspace operations. */
  datatype Rules = Rules(agentMachine: seq<string -> bool>, workspaceOps: seq<string -> bool>)

  const OPS_LABEL := "sourceos.workspace_ops"
  const SENTINEL := "@sha256:REPLACE_WITH_DIGEST"

  /** Label and required evidence: the two of `validate_contract` alone, and the four of both. */
  const OWN_EVIDENCE := [
    ("sourceos.agent_machine", "agent-machine.mount.evidence"),
    ("sourceos.office_plane", "office.artifact.evidence")]
  const OPS_EVIDENCE := [
    ("sourceos.terminal_command", "terminal.command.evidence"),
    ("sourceos.browser_session", "browser.capture.evidence"),
    ("sourceos.local_agent_execution", "agent.execution.evidence"),
    ("sourceos.file_conflict", "file.conflict.evidence")]

  const AGENT_CLASSES := ["system_core", "intelligence_automation", "app_helper", "legacy_bridge", "third_party"]

  predicate HasLabel(c: Contract, name: string) { name in c.labels && c.labels[name] == "true" }

  predicate EndsWith(s: string, end: string) { |end| <= |s| && s[|s| - |end|..] == end }

  /** `@sha256:[0-9a-f]{64}$`, where `$` also matches before a final line end. */
  predicate IsPinned(image: string) {
    var text := if EndsWith(image, "\n") then image[..|image| - 1] else image;
    PinnedText(text) || PinnedText(image)
  }

  predicate PinnedText(text: string) {
    |text| >= 72 && text[|text| - 72..|text| - 64] == "@sha256:" && forall i :: |text| - 64 <= i < |text| ==>
      Receipts.IsLowerHex(text[i])
  }

  predicate Emits(c: Contract, lane: Lane, required: (string, string)) {
    HasLabel(c, required.0) ==> required.1 in lane.emit
  }

  predicate EmitsAll(c: Contract, lane: Lane, table: seq<(string, string)>) {
    forall i :: 0 <= i < |table| ==> Emits(c, lane, table[i])
  }

  predicate Clean(patterns: seq<string -> bool>, run: string) {
    forall i :: 0 <= i < |patterns| ==> !patterns[i](run)
  }

  predicate CleanLane(patterns: seq<string -> bool>, lane: Lane) {
    forall i :: 0 <= i < |lane.runs| ==> Clean(patterns, lane.runs[i])
  }

  /** The lanes whose checks `validate_contract` skips. */
  predicate IsSentinel(underExamples: bool, lane: Lane) {
    underExamples && lane.backend.Container? && EndsWith(lane.backend.image, SENTINEL)
  }

  // ---------- validate_contract ----------

  /** The verdict on one lane's backend and evidence. */
  predicate LaneAccepted(underExamples: bool, c: Contract, lane: Lane) {
    IsSentinel(underExamples, lane) ||
    (&& (lane.backend.Container? ==> IsPinned(lane.backend.image))
     && EmitsAll(c, lane, OWN_EVIDENCE) && EmitsAll(c, lane, OPS_EVIDENCE))
  }

  predicate ContractAccepted(rules: Rules, underExamples: bool, c: Contract) {
    && (forall i :: 0 <= i < |c.lanes| ==> LaneAccepted(underExamples, c, c.lanes[i]))
    && (forall i :: 0 <= i < |c.lanes| ==> CleanLane(rules.agentMachine, c.lanes[i]))
    && (HasLabel(c, OPS_LABEL) ==> forall i :: 0 <= i < |c.lanes| ==> CleanLane(rules.workspaceOps, c.lanes[i]))
  }

  /** An exception, not a verdict: a container backend without its container. */
  predicate Raises(d: Document) {
    d.Conforming? && exists i :: 0 <= i < |d.contract.lanes| && d.contract.lanes[i].backend.ContainerWithoutImage?
  }

  predicate Accepted(rules: Rules, d: Document) {
    match d
    case Conforming(underExamples, c) => ContractAccepted(rules, underExamples, c)
    case NonConforming(_, _) => false
    case Passport(_, agentClass, claimsSystem) => agentClass in AGENT_CLASSES && !(agentClass == "third_party"
      && claimsSystem)
    case Fixture(_) => false
    case Foreign => false
  }

  method AllEmitted(c: Contract, lane: Lane, table: seq<(string, string)>) returns (ok: bool)
    ensures ok <==> EmitsAll(c, lane, table)
  {
    hide HasLabel;
    ok := true;
    for i := 0 to |table|
      invariant ok <==> forall j :: 0 <= j < i ==> Emits(c, lane, table[j])
    {
      if HasLabel(c, table[i].0) && table[i].1 !in lane.emit {
        ok := false;
      }
    }
  }

  method AllClean(patterns: seq<string -> bool>, lane: Lane) returns (ok: bool)
    ensures ok <==> CleanLane(patterns, lane)
  {
    ok := true;
    for i := 0 to |lane.runs|
      invariant ok <==> forall j :: 0 <= j < i ==> Clean(patterns, lane.runs[j])
    {
      var run := lane.runs[i];
      for k := 0 to |patterns|
        invariant ok <==> (forall j :: 0 <= j < i ==> Clean(patterns, lane.runs[j])) && forall j :: 0 <= j < k ==>
                  !patterns[j](run)
      {
        if patterns[k](run) {
          ok := false;
        }
      }
      assert Clean(patterns, run) <==> forall j :: 0 <= j < |patterns| ==> !patterns[j](run);
    }
  }

  /** The semantic loops of `validate_contract.main` for one contract; `None` when it raises. */
  method CheckContract(rules: Rules, underExamples: bool, c: Contract) returns (ok: Option<bool>)
    ensures ok.None? <==> exists i :: 0 <= i < |c.lanes| && c.lanes[i].backend.ContainerWithoutImage?
    ensures ok.Some? ==> (ok.value <==> ContractAccepted(rules, underExamples, c))
  {
    hide IsPinned, EmitsAll, CleanLane, EndsWith, HasLabel;
    var good := true;
    for i := 0 to |c.lanes|
      invariant good <==> forall j :: 0 <= j < i ==> LaneAccepted(underExamples, c, c.lanes[j])
      invariant forall j :: 0 <= j < i ==> !c.lanes[j].backend.ContainerWithoutImage?
    {
      var lane := c.lanes[i];
      if lane.backend.ContainerWithoutImage? {
        return None;
      }
      if lane.backend.Container? {
        if underExamples && EndsWith(lane.backend.image, SENTINEL) {
          continue;
        }
        if !IsPinned(lane.backend.image) {
          good := false;
        }
      }
      var own := AllEmitted(c, lane, OWN_EVIDENCE);
      var ops := AllEmitted(c, lane, OPS_EVIDENCE);
      if !own || !ops {
        good := false;
      }
    }
    var lanesGood := good;
    for i := 0 to |c.lanes|
      invariant good <==> lanesGood && (forall j :: 0 <= j < i ==> CleanLane(rules.agentMachine, c.lanes[j])) &&
                          (HasLabel(c, OPS_LABEL) ==> forall j :: 0 <= j < i ==> CleanLane(rules.workspaceOps,
                            c.lanes[j]))
    {
      var machine := AllClean(rules.agentMachine, c.lanes[i]);
      if !machine {
        good := false;
      }
      if HasLabel(c, OPS_LABEL) {
        var ops := AllClean(rules.workspaceOps, c.lanes[i]);
        if !ops {
          good := false;
        }
      }
    }
    return Some(good);
  }

  /** `validate_contract.main`: the sticky flag over the batch; `None` when a document makes it raise. */
  method ValidateContracts(rules: Rules, docs: seq<Document>) returns (ok: Option<bool>)
    ensures ok.None? <==> exists i :: 0 <= i < |docs| && Raises(docs[i])
    ensures ok.Some? ==> (ok.value <==> forall i :: 0 <= i < |docs| ==> Accepted(rules, docs[i]))
  {
    hide ContractAccepted;
    var good := true;
    for i := 0 to |docs|
      invariant good <==> forall j :: 0 <= j < i ==> Accepted(rules, docs[j])
      invariant forall j :: 0 <= j < i ==> !Raises(docs[j])
    {
      match docs[i] {
        case Conforming(underExamples, c) =>
          var verdict := CheckContract(rules, underExamples, c);
          if verdict.None? {
            assert Raises(docs[i]);
            return None;
          }
          if !verdict.value {
            good := false;
          }
        case NonConforming(_, _) => good := false;
        case Passport(_, agentClass, claimsSystem) =>
          if agentClass !in AGENT_CLASSES || (agentClass == "third_party" && claimsSystem) {
            good := false;
          }
        case Fixture(_) => good := false;
        case Foreign => good := false;
      }
    }
    return Some(good);
  }

  // ---------- validate_workspace_ops ----------

  predicate OpsContractAccepted(rules: Rules, c: Contract) {
    HasLabel(c, OPS_LABEL) ==>
      forall i :: 0 <= i < |c.lanes| ==> EmitsAll(c, c.lanes[i], OPS_EVIDENCE) && CleanLane(rules.workspaceOps,
        c.lanes[i])
  }

  predicate OpsAccepted(rules: Rules, d: Document) {
    match d
    case Conforming(_, c) => OpsContractAccepted(rules, c)
    case NonConforming(conforms, c) => conforms != Some(false) && OpsContractAccepted(rules, c)
    case Fixture(conforming) => conforming
    case Passport(conforms, _, _) => conforms != Some(false)
    case Foreign => true
  }

  /** `_validate_fixture` fails: the document names a workspace-ops schema and does not meet it. */
  predicate FailsNamedSchema(d: Document) {
    match d
    case Fixture(conforming) => !conforming
    case NonConforming(conforms, _) => conforms == Some(false)
    case Passport(conforms, _, _) => conforms == Some(false)
    case _ => false
  }

  /** `_validate_workstation_contract`: it threads the flag it is given. */
  method CheckOps(rules: Rules, c: Contract, ok: bool) returns (r: bool)
    ensures r <==> ok && OpsContractAccepted(rules, c)
  {
    hide EmitsAll, CleanLane, HasLabel;
    r := ok;
    if !HasLabel(c, OPS_LABEL) {
      return;
    }
    for i := 0 to |c.lanes|
      invariant r <==> ok && forall j :: 0 <= j < i ==> EmitsAll(c, c.lanes[j], OPS_EVIDENCE)
    {
      var emitted := AllEmitted(c, c.lanes[i], OPS_EVIDENCE);
      if !emitted {
        r := false;
      }
    }
    var emitted := r;
    for i := 0 to |c.lanes|
      invariant r <==> emitted && forall j :: 0 <= j < i ==> CleanLane(rules.workspaceOps, c.lanes[j])
    {
      var clean := AllClean(rules.workspaceOps, c.lanes[i]);
      if !clean {
        r := false;
      }
    }
  }

  /** `validate_workspace_ops.main`. */
  method ValidateOps(rules: Rules, docs: seq<Document>) returns (ok: bool)
    ensures ok <==> forall i :: 0 <= i < |docs| ==> OpsAccepted(rules, docs[i])
  {
    hide OpsContractAccepted;
    ok := true;
    for i := 0 to |docs|
      invariant ok <==> forall j :: 0 <= j < i ==> OpsAccepted(rules, docs[j])
    {
      if FailsNamedSchema(docs[i]) {
        ok := false;
      }
      if docs[i].Conforming? || docs[i].NonConforming? {
        ok := CheckOps(rules, docs[i].contract, ok);
      }
    }
  }

  // ---------- agreement ----------

  /** A lane that `validate_contract` skips emits the workspace-ops evidence all the same. */
  predicate SkippedLanesEmit(d: Document) {
    d.Conforming? && HasLabel(d.contract, OPS_LABEL) ==>
      forall i :: 0 <= i < |d.contract.lanes| && IsSentinel(d.underExamples, d.contract.lanes[i]) ==>
        EmitsAll(d.contract, d.contract.lanes[i], OPS_EVIDENCE)
  }

  /** What `validate_contract` accepts, `validate_workspace_ops` accepts exactly when the lanes with
    a sentinel digest emit their evidence too, and a passport meets the workspace-ops schema it
    names, if it names one. */
  lemma {:induction false} AgreeIff(rules: Rules, d: Document)
    requires Accepted(rules, d)
    ensures OpsAccepted(rules, d) <==> SkippedLanesEmit(d) && !FailsNamedSchema(d)
  {
    hide EmitsAll, CleanLane, IsSentinel, IsPinned, HasLabel;
  }

  /** An example with one container lane, pinned to the sentinel, that runs and emits nothing although
    a label asks for terminal evidence: the first accepts it, the second does not. */
  function SentinelExample(): Document {
    Conforming(true, Contract(
      map["sourceos.workspace_ops" := "true", "sourceos.terminal_command" := "true"],
      [Lane("truth", Container("truth" + SENTINEL), {}, [])]))
  }

  lemma {:induction false} SentinelDisagrees(rules: Rules)
    ensures Accepted(rules, SentinelExample()) && !OpsAccepted(rules, SentinelExample())
  {
    hide Clean, IsPinned;
    var d := SentinelExample();
    var lane := d.contract.lanes[0];
    assert IsSentinel(true, lane);
    assert !Emits(d.contract, lane, OPS_EVIDENCE[0]);
    assert !EmitsAll(d.contract, lane, OPS_EVIDENCE);
  }

  /** A classified passport that names a workspace-ops schema and does not meet it. */
  lemma {:induction false} PassportDisagrees(rules: Rules)
    ensures var d := Passport(Some(false), "app_helper", false); Accepted(rules, d) && !OpsAccepted(rules, d)
  {
    assert AGENT_CLASSES[2] == "app_helper" && |"app_helper"| != |"third_party"|;
  }

  predicate HasSentinel(d: Document) {
    d.Conforming? && exists k :: 0 <= k < |d.contract.lanes| && IsSentinel(d.underExamples, d.contract.lanes[k])
  }

  /** A batch the first accepts the second accepts exactly when this holds of every document; in
    particular when there are no sentinel lanes and no passports that fail a schema they name. */
  lemma {:induction false} BatchAgrees(rules: Rules, docs: seq<Document>)
    requires forall i :: 0 <= i < |docs| ==> Accepted(rules, docs[i])
    ensures (forall i :: 0 <= i < |docs| ==> OpsAccepted(rules, docs[i])) <==>
            forall i :: 0 <= i < |docs| ==> SkippedLanesEmit(docs[i]) && !FailsNamedSchema(docs[i])
    ensures (forall i :: 0 <= i < |docs| ==> !HasSentinel(docs[i]) && !FailsNamedSchema(docs[i])) ==>
              forall i :: 0 <= i < |docs| ==> OpsAccepted(rules, docs[i])
  {
    hide Accepted, OpsAccepted, SkippedLanesEmit, FailsNamedSchema, HasSentinel;
    forall i | 0 <= i < |docs|
      ensures OpsAccepted(rules, docs[i]) <==> SkippedLanesEmit(docs[i]) && !FailsNamedSchema(docs[i])
      ensures !HasSentinel(docs[i]) ==> SkippedLanesEmit(docs[i])
    {
      AgreeIff(rules, docs[i]);
      if !HasSentinel(docs[i]) { NothingSkipped(docs[i]); }
    }
  }

  lemma {:induction false} NothingSkipped(d: Document)
    requires !HasSentinel(d)
    ensures SkippedLanesEmit(d)
  {
    hide IsSentinel, EmitsAll, HasLabel;
  }

  /** A batch verdict does not depend on the order or the repetition of documents. */
  lemma {:induction false} OrderIrrelevant(rules: Rules, a: seq<Document>, b: seq<Document>)
    requires forall d :: d in a <==> d in b
    ensures (forall i :: 0 <= i < |a| ==> Accepted(rules, a[i])) <==> (forall i :: 0 <= i < |b| ==> Accepted(rules,
            b[i]))
    ensures (forall i :: 0 <= i < |a| ==> OpsAccepted(rules, a[i])) <==> (forall i :: 0 <= i < |b| ==>
            OpsAccepted(rules, b[i]))
  {
    hide *;
    SameElements(d => Accepted(rules, d), a, b);
    SameElements(d => OpsAccepted(rules, d), a, b);
  }

  lemma {:induction false} SameElements(p: Document -> bool, a: seq<Document>, b: seq<Document>)
    requires forall d :: d in a <==> d in b
    ensures (forall i :: 0 <= i < |a| ==> p(a[i])) <==> (forall i :: 0 <= i < |b| ==> p(b[i]))
  {
    forall i | 0 <= i < |a| ensures exists j :: 0 <= j < |b| && b[j] == a[i] { assert a[i] in b; }
    forall i | 0 <= i < |b| ensures exists j :: 0 <= j < |a| && a[j] == b[i] { assert b[i] in a; }
  }
}
