/** The deny-by-default decision on a host-interface envelope. Schema conformance of the envelope is
  taken for granted: the fields here are the ones the decision reads. */
module HostInterface {
  import opened Json
  import opened TextOrder
  import opened Timestamps

  datatype Grant = Grant(
    grantId: string, workspaceId: string, interfaceKind: string, expiresAt: string, scope: seq<string>, revoked: bool)

  datatype Receipt = Receipt(workspaceId: string, interfaceKind: string, grantId: Option<string>, result: string)

  datatype Envelope = Envelope(
    workspaceId: string, interfaceKind: string, decidedAt: string, requestedCapabilities: seq<string>,
    grant: Option<Grant>, result: string, receipt: Receipt)

  datatype Reason = Granted | NoGrant | Revoked | Expired | KindMismatch | WorkspaceMismatch | ExceedsScope

  /** The grant's scope covers the request. */
  predicate Covers(scope: seq<string>, requested: seq<string>) {
    "*" in scope || forall c :: c in requested ==> c in scope
  }

  /** The grant of the envelope admits its request: present, unrevoked, after the decision, for this
    kind and workspace, and wide enough. */
  predicate Admitted(env: Envelope) {
    && env.grant.Some?
    && var g := env.grant.value;
    && !g.revoked && Less(env.decidedAt, g.expiresAt)
    && g.interfaceKind == env.interfaceKind && g.workspaceId == env.workspaceId
    && Covers(g.scope, env.requestedCapabilities)
  }

  /** `grant_valid`; `reason` is the first thing wrong. */
  method GrantValid(env: Envelope) returns (valid: bool, reason: Reason)
    ensures valid <==> Admitted(env)
    ensures valid <==> reason.Granted?
    ensures reason.NoGrant? <==> env.grant.None?
    ensures env.grant.Some? ==>
              var g := env.grant.value;
              && (reason.Revoked? <==> g.revoked)
              && (reason.Expired? <==> !g.revoked && LessOrEqual(g.expiresAt, env.decidedAt))
              && (reason.KindMismatch? <==>
                  !g.revoked && Less(env.decidedAt, g.expiresAt) && g.interfaceKind != env.interfaceKind)
              && (reason.WorkspaceMismatch? <==>
                  && !g.revoked && Less(env.decidedAt, g.expiresAt) && g.interfaceKind == env.interfaceKind
                  && g.workspaceId != env.workspaceId)
              && (reason.ExceedsScope? <==>
                  && !g.revoked && Less(env.decidedAt, g.expiresAt) && g.interfaceKind == env.interfaceKind
                  && g.workspaceId == env.workspaceId
                  && "*" !in g.scope && exists c :: c in env.requestedCapabilities && c !in g.scope)
  {
    hide Less;
    if env.grant.None? {
      return false, NoGrant;
    }
    var g := env.grant.value;
    if g.revoked {
      return false, Revoked;
    }
    if LessOrEqual(g.expiresAt, env.decidedAt) {
      NotLater(env.decidedAt, g.expiresAt);
      return false, Expired;
    }
    LessTotal(env.decidedAt, g.expiresAt);
    if g.interfaceKind != env.interfaceKind {
      return false, KindMismatch;
    }
    if g.workspaceId != env.workspaceId {
      return false, WorkspaceMismatch;
    }
    var scope, requested := set c | c in g.scope, set c | c in env.requestedCapabilities;
    if "*" !in scope && !(requested <= scope) {
      return false, ExceedsScope;
    }
    if "*" !in g.scope {
      assert "*" !in scope;
      forall c | c in env.requestedCapabilities ensures c in g.scope {
        assert c in requested;
        assert c in scope;
      }
    }
    return true, Granted;
  }

  lemma {:induction false} NotLater(s: string, t: string)
    requires LessOrEqual(t, s)
    ensures !Less(s, t)
  {
    LessIrreflexive(s);
    if Less(t, s) && Less(s, t) { LessTransitive(s, t, s); }
  }

  /** The receipt says the same as the envelope. */
  predicate ReceiptAgrees(env: Envelope) {
    && env.receipt.result == env.result
    && env.receipt.interfaceKind == env.interfaceKind && env.receipt.workspaceId == env.workspaceId
    && env.receipt.grantId == if env.grant.Some? then Some(env.grant.value.grantId) else None
  }

  /** An allow has an admitting grant, and the receipt agrees. */
  predicate EnvelopeAccepted(env: Envelope) {
    (env.result == "allow" ==> Admitted(env)) && ReceiptAgrees(env)
  }

  /** The semantic half of `check`. */
  method Check(env: Envelope) returns (ok: bool)
    ensures ok <==> EnvelopeAccepted(env)
  {
    ok := true;
    var valid, _ := GrantValid(env);
    if env.result == "allow" && !valid {
      ok := false;
    }
    if env.receipt.result != env.result {
      ok := false;
    }
    if env.receipt.interfaceKind != env.interfaceKind || env.receipt.workspaceId != env.workspaceId {
      ok := false;
    }
    var expected := if env.grant.Some? then Some(env.grant.value.grantId) else None;
    if env.receipt.grantId != expected {
      ok := false;
    }
  }

  /** `main`: one bad envelope fails the batch. */
  method CheckAll(envs: seq<Envelope>) returns (ok: bool)
    ensures ok <==> forall i :: 0 <= i < |envs| ==> EnvelopeAccepted(envs[i])
  {
    hide EnvelopeAccepted;
    ok := true;
    for i := 0 to |envs|
      invariant ok <==> forall j :: 0 <= j < i ==> EnvelopeAccepted(envs[j])
    {
      var good := Check(envs[i]);
      if !good {
        ok := false;
      }
    }
  }

  // ---------- expiry is a matter of time ----------

  /** An accepted allow has a live grant: when both times are written with one zone and precision,
    its expiry is an instant strictly after the decision. */
  lemma {:induction false} AllowedIsUnexpired(env: Envelope, expires: Timestamp, decided: Timestamp)
    requires IsTime(expires) && IsTime(decided) && expires.digits == decided.digits && expires.zone == decided.zone
    requires env.grant.Some? && env.grant.value.expiresAt == Text(expires) && env.decidedAt == Text(decided)
    ensures Admitted(env) <==>
            && !env.grant.value.revoked && Instant(decided) < Instant(expires)
            && env.grant.value.interfaceKind == env.interfaceKind && env.grant.value.workspaceId == env.workspaceId
            && ("*" in env.grant.value.scope
                || forall c :: c in env.requestedCapabilities ==> c in env.grant.value.scope)
  {
    hide Text, Less, Instant, IsTime;
    TextOrderIsTimeOrder(decided, expires);
  }

  function Morning(hour: nat, digits: nat, fraction: nat, zone: Zone): Timestamp {
    Timestamp(2026, 5, 2, hour, 0, 0, digits, fraction, zone)
  }

  lemma {:induction false} MorningText(hour: nat, digits: nat, fraction: nat, zone: Zone)
    requires hour < 24
    ensures Text(Morning(hour, digits, fraction, zone)) ==
            "2026-05-02T" + (Pad(hour, 2) + (":00:0" + ("0" + FractionText(Morning(hour, digits, fraction, zone)))))
  {
    PadOf2026();
    var f := FractionText(Morning(hour, digits, fraction, zone));
    hide FractionText, Pad;
    var h := Pad(hour, 2);
    assert ":" + ("00" + (":" + ("00" + f))) == ":00:0" + ("0" + f);
    assert "2026" + ("-" + ("05" + ("-" + ("02" + ("T" + (h + (":00:0" + ("0" + f)))))))) ==
      "2026-05-02T" + (h + (":00:0" + ("0" + f)));
  }

  lemma {:induction false} PadOf2026()
    ensures Pad(2026, 4) == "2026" && Pad(5, 2) == "05" && Pad(2, 2) == "02" && Pad(0, 2) == "00"
  {
    assert Pad(2, 1) == "2" && Pad(20, 2) == "20" && Pad(202, 3) == "202";
    assert Pad(0, 1) == "0" && Pad(5, 1) == "5";
  }

  const EXPIRES := Morning(10, 0, 0, Offset(true, 2, 0))
  const DECIDED := Morning(9, 0, 0, Zulu)

  /** An allow on a terminal whose grant expired at ten o'clock two hours ahead of UTC, decided at
    nine o'clock UTC. */
  function LateAllow(): Envelope {
    Envelope("ws-1", "terminal-pty", Text(DECIDED), ["exec"],
             Some(Grant("g-1", "ws-1", "terminal-pty", Text(EXPIRES), ["exec"], false)),
             "allow", Receipt("ws-1", "terminal-pty", Some("g-1"), "allow"))
  }

  /** Between different zones the comparison can admit too much: this grant ran out an hour before the
    decision, and the envelope passes. */
  lemma {:induction false} MixedZonesMisjudged()
    ensures LateAllow().result == "allow" && EnvelopeAccepted(LateAllow())
    ensures IsTime(EXPIRES) && IsTime(DECIDED) && Instant(EXPIRES) + 3600 == Instant(DECIDED)
  {
    hide Text, Less, DaysBeforeYear, DaysBeforeMonth;
    ZonesMixed();
  }

  lemma {:induction false} ZonesMixed()
    ensures IsTime(EXPIRES) && IsTime(DECIDED) && Less(Text(DECIDED), Text(EXPIRES))
    ensures Instant(EXPIRES) + 3600 == Instant(DECIDED)
  {
    var expires, decided := EXPIRES, DECIDED;
    MorningText(10, 0, 0, Offset(true, 2, 0));
    MorningText(9, 0, 0, Zulu);
    Powers();
    hide FractionText, Text, Less, DaysBeforeYear, DaysBeforeMonth;
    var x, y := ":00:0" + ("0" + FractionText(expires)), ":00:0" + ("0" + FractionText(decided));
    FieldOrder(9, 10, 2, y, x);
    LessAfterPrefix("2026-05-02T", Pad(9, 2) + y, Pad(10, 2) + x);
  }
}
