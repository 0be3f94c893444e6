/** What the two validators of `Validators` ask for, label by label and character by character. */
module ValidatorLaws {
  import opened Json
  import Receipts
  import opened Validators

  /** A name, the mark, 64 lower-case hexadecimal digits, and possibly a line end. */
  ghost predicate PinnedParts(image: string, name: string, digits: string, end: string) {
    && image == name + ("@sha256:" + (digits + end)) && (end == "" || end == "\n")
    && |digits| == 64 && forall i :: 0 <= i < 64 ==> digits[i] in "0123456789abcdef"
  }

  ghost predicate PinsDigest(image: string) { exists name, digits, end :: PinnedParts(image, name, digits, end) }

  /** The digest is still to be filled in. */
  ghost predicate Bootstraps(lane: Lane) {
    exists name :: lane.backend == Container(name + "@sha256:REPLACE_WITH_DIGEST")
  }

  lemma {:induction false} HexDigitsAre(c: char)
    ensures Receipts.IsLowerHex(c) <==> c in "0123456789abcdef"
  {
    var d := "0123456789abcdef";
    assert d[0] == '0' && d[1] == '1' && d[2] == '2' && d[3] == '3' && d[4] == '4' && d[5] == '5' && d[6] == '6';
    assert d[7] == '7' && d[8] == '8' && d[9] == '9' && d[10] == 'a' && d[11] == 'b' && d[12] == 'c' && d[13] == 'd';
    assert d[14] == 'e' && d[15] == 'f' && |d| == 16;
  }

  lemma {:induction false} PinnedTextParts(text: string) returns (name: string, digits: string)
    ensures PinnedText(text) ==> PinnedParts(text, name, digits, "")
  {
    hide Receipts.IsLowerHex;
    name, digits := "", "";
    if PinnedText(text) {
      name, digits := text[..|text| - 72], text[|text| - 64..];
      assert text == name + (text[|text| - 72..|text| - 64] + digits);
      assert digits + "" == digits;
      forall i | 0 <= i < 64 ensures digits[i] in "0123456789abcdef" { HexDigitsAre(digits[i]); }
    }
  }

  lemma {:induction false} PartsPinned(text: string, name: string, digits: string)
    requires PinnedParts(text, name, digits, "")
    ensures PinnedText(text)
  {
    hide Receipts.IsLowerHex;
    assert digits + "" == digits;
    assert text[|text| - 64..] == digits && text[|text| - 72..|text| - 64] == "@sha256:";
    forall i | |text| - 64 <= i < |text| ensures Receipts.IsLowerHex(text[i]) {
      HexDigitsAre(text[i]);
      assert text[i] == digits[i - (|text| - 64)];
    }
  }

  lemma {:induction false} PartsBeforeLineEnd(image: string, name: string, digits: string)
    ensures PinnedParts(image + "\n", name, digits, "\n") <==> PinnedParts(image, name, digits, "")
  {
    assert name + ("@sha256:" + (digits + "\n")) == (name + ("@sha256:" + (digits + ""))) + "\n";
    assert (image + "\n")[..|image|] == image;
    var text := name + ("@sha256:" + (digits + ""));
    assert (text + "\n")[..|text|] == text;
  }

  /** Which images count as pinned. */
  lemma {:induction false} PinnedIff(image: string)
    ensures IsPinned(image) <==> PinsDigest(image)
  {
    hide PinnedText, PinnedParts;
    var name, digits := PinnedTextParts(image);
    if PinnedText(image) { assert PinnedParts(image, name, digits, ""); }
    if EndsWith(image, "\n") {
      var text := image[..|image| - 1];
      assert image == text + "\n";
      var name', digits' := PinnedTextParts(text);
      PartsBeforeLineEnd(text, name', digits');
      if PinnedText(text) { assert PinnedParts(image, name', digits', "\n"); }
    }
    if name', digits', end :| PinnedParts(image, name', digits', end) { PartsArePinned(image, name', digits', end); }
  }

  lemma {:induction false} PartsArePinned(image: string, name: string, digits: string, end: string)
    requires PinnedParts(image, name, digits, end)
    ensures IsPinned(image)
  {
    hide PinnedText;
    if end == "" {
      PartsPinned(image, name, digits);
    } else {
      var text := name + ("@sha256:" + (digits + ""));
      assert image == text + "\n";
      assert image[..|image| - 1] == text;
      PartsBeforeLineEnd(text, name, digits);
      PartsPinned(text, name, digits);
    }
  }

  /** The lanes `validate_contract` skips. */
  lemma {:induction false} SentinelIff(underExamples: bool, lane: Lane)
    ensures IsSentinel(underExamples, lane) <==> underExamples && Bootstraps(lane)
  {
    if IsSentinel(underExamples, lane) {
      var image := lane.backend.image;
      assert image == image[..|image| - |SENTINEL|] + "@sha256:REPLACE_WITH_DIGEST";
    }
    if name :| lane.backend == Container(name + "@sha256:REPLACE_WITH_DIGEST") {
      assert lane.backend.image[|name|..] == "@sha256:REPLACE_WITH_DIGEST";
    }
  }

  /** The label asks the lane for the evidence. */
  ghost predicate Asks(c: Contract, lane: Lane, name: string, evidence: string) {
    (name, "true") in c.labels.Items ==> evidence in lane.emit
  }

  lemma {:induction false} LabelIs(c: Contract, name: string)
    ensures HasLabel(c, name) <==> (name, "true") in c.labels.Items
  {
  }

  lemma {:induction false} EmitsIs(c: Contract, lane: Lane, name: string, evidence: string)
    ensures Emits(c, lane, (name, evidence)) <==> Asks(c, lane, name, evidence)
  {
    hide HasLabel;
    LabelIs(c, name);
  }

  /** The evidence both validators ask a lane for. */
  lemma {:induction false} OpsEvidenceIs(c: Contract, lane: Lane)
    ensures EmitsAll(c, lane, OPS_EVIDENCE) <==>
            && Asks(c, lane, "sourceos.terminal_command", "terminal.command.evidence")
            && Asks(c, lane, "sourceos.browser_session", "browser.capture.evidence")
            && Asks(c, lane, "sourceos.local_agent_execution", "agent.execution.evidence")
            && Asks(c, lane, "sourceos.file_conflict", "file.conflict.evidence")
  {
    hide Emits, Asks;
    EmitsIs(c, lane, "sourceos.terminal_command", "terminal.command.evidence");
    EmitsIs(c, lane, "sourceos.browser_session", "browser.capture.evidence");
    EmitsIs(c, lane, "sourceos.local_agent_execution", "agent.execution.evidence");
    EmitsIs(c, lane, "sourceos.file_conflict", "file.conflict.evidence");
    var t := OPS_EVIDENCE;
    assert |t| == 4 && t[0] == ("sourceos.terminal_command", "terminal.command.evidence");
    assert t[1] == ("sourceos.browser_session", "browser.capture.evidence");
    assert t[2] == ("sourceos.local_agent_execution", "agent.execution.evidence");
    assert t[3] == ("sourceos.file_conflict", "file.conflict.evidence");
  }

  /** The evidence `validate_contract` alone asks a lane for. */
  lemma {:induction false} OwnEvidenceIs(c: Contract, lane: Lane)
    ensures EmitsAll(c, lane, OWN_EVIDENCE) <==>
            && Asks(c, lane, "sourceos.agent_machine", "agent-machine.mount.evidence")
            && Asks(c, lane, "sourceos.office_plane", "office.artifact.evidence")
  {
    hide Emits, Asks;
    EmitsIs(c, lane, "sourceos.agent_machine", "agent-machine.mount.evidence");
    EmitsIs(c, lane, "sourceos.office_plane", "office.artifact.evidence");
    var t := OWN_EVIDENCE;
    assert |t| == 2 && t[0] == ("sourceos.agent_machine", "agent-machine.mount.evidence");
    assert t[1] == ("sourceos.office_plane", "office.artifact.evidence");
  }

  /** No step of the lane matches a pattern. */
  ghost predicate NoneMatches(patterns: seq<string -> bool>, lane: Lane) {
    forall run, p :: run in lane.runs && p in patterns ==> !p(run)
  }

  lemma {:induction false} CleanIs(patterns: seq<string -> bool>, lane: Lane)
    ensures CleanLane(patterns, lane) <==> NoneMatches(patterns, lane)
  {
    if CleanLane(patterns, lane) {
      forall run, p | run in lane.runs && p in patterns ensures !p(run) {
        var i :| 0 <= i < |lane.runs| && lane.runs[i] == run;
        assert Clean(patterns, lane.runs[i]);
      }
    }
    if NoneMatches(patterns, lane) {
      forall i, k | 0 <= i < |lane.runs| && 0 <= k < |patterns| ensures !patterns[k](lane.runs[i]) {
        assert lane.runs[i] in lane.runs && patterns[k] in patterns;
      }
    }
  }

  /** A lane of the workstation contract as `validate_contract` wants it. */
  ghost predicate GoodLane(underExamples: bool, c: Contract, lane: Lane) {
    || (underExamples && Bootstraps(lane))
    || (&& (lane.backend.Container? ==> PinsDigest(lane.backend.image))
        && Asks(c, lane, "sourceos.agent_machine", "agent-machine.mount.evidence")
        && Asks(c, lane, "sourceos.office_plane", "office.artifact.evidence")
        && GoodOpsLane(c, lane))
  }

  ghost predicate GoodOpsLane(c: Contract, lane: Lane) {
    && Asks(c, lane, "sourceos.terminal_command", "terminal.command.evidence")
    && Asks(c, lane, "sourceos.browser_session", "browser.capture.evidence")
    && Asks(c, lane, "sourceos.local_agent_execution", "agent.execution.evidence")
    && Asks(c, lane, "sourceos.file_conflict", "file.conflict.evidence")
  }

  lemma {:induction false} GoodLaneIff(underExamples: bool, c: Contract, lane: Lane)
    ensures LaneAccepted(underExamples, c, lane) <==> GoodLane(underExamples, c, lane)
    ensures EmitsAll(c, lane, OPS_EVIDENCE) <==> GoodOpsLane(c, lane)
  {
    hide Asks, EmitsAll, IsSentinel, IsPinned, PinnedParts;
    SentinelIff(underExamples, lane);
    OwnEvidenceIs(c, lane);
    OpsEvidenceIs(c, lane);
    if lane.backend.Container? { PinnedIff(lane.backend.image); }
  }

  /** When `validate_contract` accepts a contract that meets its schema. */
  lemma {:induction false} ContractAcceptedIff(rules: Rules, underExamples: bool, c: Contract)
    ensures Accepted(rules, Conforming(underExamples, c)) <==>
            && (forall lane :: lane in c.lanes ==>
                  GoodLane(underExamples, c, lane) && NoneMatches(rules.agentMachine, lane))
            && (("sourceos.workspace_ops", "true") in c.labels.Items ==>
                  forall lane :: lane in c.lanes ==> NoneMatches(rules.workspaceOps, lane))
  {
    hide LaneAccepted, CleanLane, GoodLane, NoneMatches, HasLabel;
    LabelIs(c, "sourceos.workspace_ops");
    forall lane ensures LaneAccepted(underExamples, c, lane) <==> GoodLane(underExamples, c, lane) {
      GoodLaneIff(underExamples, c, lane);
    }
    forall patterns, lane ensures CleanLane(patterns, lane) <==> NoneMatches(patterns, lane) {
      CleanIs(patterns, lane);
    }
  }

  /** When `validate_workspace_ops` accepts it. */
  lemma {:induction false} OpsAcceptedIff(rules: Rules, underExamples: bool, c: Contract)
    ensures OpsAccepted(rules, Conforming(underExamples, c)) <==>
            (("sourceos.workspace_ops", "true") in c.labels.Items ==>
               forall lane :: lane in c.lanes ==> GoodOpsLane(c, lane) && NoneMatches(rules.workspaceOps, lane))
  {
    hide EmitsAll, CleanLane, GoodOpsLane, NoneMatches, HasLabel;
    LabelIs(c, "sourceos.workspace_ops");
    forall lane ensures EmitsAll(c, lane, OPS_EVIDENCE) <==> GoodOpsLane(c, lane) {
      GoodLaneIff(underExamples, c, lane);
    }
    forall lane ensures CleanLane(rules.workspaceOps, lane) <==> NoneMatches(rules.workspaceOps, lane) {
      CleanIs(rules.workspaceOps, lane);
    }
  }

  /** The first validator takes no other document; the second takes those that meet the schema of
    workspace operations they name, and checks whatever says it is a workstation contract. */
  lemma {:induction false} OtherVerdicts(rules: Rules, conforms: Option<bool>, c: Contract)
    ensures !Accepted(rules, NonConforming(conforms, c)) && !Accepted(rules, Foreign)
    ensures forall met :: !Accepted(rules, Fixture(met)) && (OpsAccepted(rules, Fixture(met)) <==> met)
    ensures forall name, system :: OpsAccepted(rules, Passport(conforms, name, system)) <==> conforms != Some(false)
    ensures OpsAccepted(rules, Foreign)
    ensures OpsAccepted(rules, NonConforming(conforms, c)) <==>
            conforms != Some(false) && OpsAccepted(rules, Conforming(true, c))
  {
    hide OpsContractAccepted;
  }

  /** When `validate_contract` accepts a passport. */
  lemma {:induction false} PassportAcceptedIff(rules: Rules, conforms: Option<bool>, agentClass: string, system: bool)
    ensures Accepted(rules, Passport(conforms, agentClass, system)) <==>
            || agentClass == "system_core" || agentClass == "intelligence_automation" || agentClass == "app_helper"
            || agentClass == "legacy_bridge" || (agentClass == "third_party" && !system)
  {
    var a := AGENT_CLASSES;
    assert |a| == 5 && a[0] == "system_core" && a[1] == "intelligence_automation" && a[2] == "app_helper";
    assert a[3] == "legacy_bridge" && a[4] == "third_party";
    assert a[0] != a[4] && a[1] != a[4] && a[2] != a[4] && a[3][0] != a[4][0];
  }
}
