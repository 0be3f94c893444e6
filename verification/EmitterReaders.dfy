/** What `verify_ledger` says of the file at any moment of any run. */
module EmitterReaders {
  import opened Json
  import opened JsonCanonical
  import opened Lines
  import opened Receipts
  import opened Ledger
  import opened Emitter
  import opened EmitterDomain
  import opened EmitterLaws
  import opened EmitterRuns
  import opened EmitterRunLaws

  /** The arguments of the call that wrote the `k`-th line are in the schema's domain. */
  predicate LineAllowed(s: State, k: nat) {
    k < |s.log| && s.log[k].call < |s.calls| && InDomain(s.calls[s.log[k].call].args)
  }

  /** `k` is the first line the schema does not allow, or their number when it allows all. */
  ghost predicate FirstOutside(s: State, k: nat) {
    k <= |s.log| && (forall j :: 0 <= j < k ==> LineAllowed(s, j)) && (k < |s.log| ==> !LineAllowed(s, k))
  }

  /** The call has written all of its line but the "\n". */
  predicate LacksLineEnd(s: State, i: nat)
    requires i < |s.calls|
  {
    s.calls[i].phase.Writing? && s.calls[i].phase.left == "\n" && s.stub == Canonical(s.calls[i].phase.receipt)
  }

  // ---------- the lines of the file ----------

  /** The three things that can follow the whole lines. */
  lemma {:induction false} StubIs(hash: string -> Digest, base: string, n0: nat, s: State)
    requires Chained(hash, base, n0) && Inv(hash, base, s)
    ensures s.file == if s.stub == "" then base + Encode(s.log) else base + Encode(s.log) + s.stub
    ensures s.stub == "" || TornEntry(s.stub) || exists i :: 0 <= i < |s.calls| && LacksLineEnd(s, i)
  {
    hide Chained, Encode, Canonical, TornEntry, Linear, NextReceipt, SomeCrash, InFlight, Logged, Locking;
    assert base + Encode(s.log) + "" == base + Encode(s.log);
    if s.stub != "" && !TornEntry(s.stub) {
      var i :| 0 <= i < |s.calls| && s.calls[i].phase.Writing? && s.calls[i].phase.left != "";
      LastPiece(hash, base, n0, s, i);
    }
  }

  lemma {:induction false} LastPiece(hash: string -> Digest, base: string, n0: nat, s: State, i: nat)
    requires Chained(hash, base, n0) && Inv(hash, base, s)
    requires i < |s.calls| && s.calls[i].phase.Writing? && s.calls[i].phase.left != ""
    requires s.stub != "" && !TornEntry(s.stub)
    ensures LacksLineEnd(s, i)
  {
    hide Chained, Encode, Canonical, TornEntry, Linear, NextReceipt, SomeCrash, Logged, Locking;
    if s.calls[i].phase.left != "\n" {
      StubIsTorn(hash, base, n0, s, i);
    }
    assert InFlight(hash, base, s, s.calls[i]);
    StubIsLine(s.stub, "\n", Canonical(s.calls[i].phase.receipt));
  }

  /** The receipt whose line end is still missing is the one an emit on the whole lines yields. */
  lemma {:induction false} LastPieceIs(hash: string -> Digest, base: string, s: State, i: nat)
    requires Inv(hash, base, s) && i < |s.calls| && LacksLineEnd(s, i)
    ensures PlainCounts(s.calls[i].args)
    ensures NextReceipt(hash, base + Encode(s.log), s.calls[i].args, s.calls[i].phase.now) ==
            Success(s.calls[i].phase.receipt)
  {
    hide Encode, Canonical, TornEntry, Linear, NextReceipt, SomeCrash, Busy, Logged, Locking, PlainCounts;
    assert InFlight(hash, base, s, s.calls[i]);
  }

  /** A piece of a line is one more line for a reader. */
  lemma {:induction false} StubLine(hash: string -> Digest, file: string, n: nat, stub: string, r: Value)
    requires Chained(hash, file, n)
    requires TornEntry(stub) || (stub == Canonical(r) && r.Obj? && Plain(r))
    ensures VerifierLines(file + stub) == VerifierLines(file) + [stub]
  {
    hide VerifierLines, Verified, ViewsAgree, UniversalNewlines, Canonical, TornEntry, Plain, Loads, EmitterLines;
    if TornEntry(stub) {
      TornEntryFacts(stub);
    } else {
      CanonicalLine(r);
    }
    assert forall i :: 0 <= i < |stub| ==> stub[i] != '\n' by { NoLineEnd(stub); }
    UnterminatedLine(file, stub);
  }

  lemma {:induction false} NoLineEnd(line: string)
    requires NoBoundary(line)
    ensures forall i :: 0 <= i < |line| ==> line[i] != '\n'
  {
    assert forall i :: 0 <= i < |line| ==> !IsBoundary(line[i]);
  }

  /** The whole lines, and at most one piece. */
  lemma {:induction false} FileLinesAre(hash: string -> Digest, base: string, n0: nat, s: State)
    requires Chained(hash, base, n0) && Inv(hash, base, s)
    ensures VerifierLines(s.file) ==
            (VerifierLines(base) + LogLines(s.log)) + if s.stub == "" then [] else [s.stub]
  {
    hide Chained, VerifierLines, Encode, Canonical, TornEntry, NextReceipt, LogLines, Inv, LacksLineEnd, Plain,
         PlainCounts;
    StubIs(hash, base, n0, s);
    AllWholeLines(hash, base, n0, s);
    var whole := base + Encode(s.log);
    if s.stub == "" {
      var lines := VerifierLines(base) + LogLines(s.log);
      assert lines + [] == lines;
    } else if TornEntry(s.stub) {
      StubLine(hash, whole, n0 + |s.log|, s.stub, Null);
    } else {
      var i :| 0 <= i < |s.calls| && LacksLineEnd(s, i);
      LacksText(s, i);
      LastPieceIs(hash, base, s, i);
      EmitChains(hash, whole, n0 + |s.log|, s.calls[i].args, s.calls[i].phase.now);
      StubLine(hash, whole, n0 + |s.log|, s.stub, s.calls[i].phase.receipt);
    }
  }

  lemma {:induction false} LacksText(s: State, i: nat)
    requires i < |s.calls| && LacksLineEnd(s, i)
    ensures s.calls[i].phase.Writing? && s.stub == Canonical(s.calls[i].phase.receipt)
  {
  }

  // ---------- the schema's verdict ----------

  /** Up to the first line the schema does not allow, the ledger is clean for `verify_ledger`. */
  lemma {:induction false} AllowedLines(hash: string -> Digest, base: string, n0: nat, s: State, k: nat)
    requires CleanFile(Checked(hash), base, n0) && Linear(hash, base, s) && k <= |s.log|
    requires forall j :: 0 <= j < k ==> LineAllowed(s, j)
    ensures CleanFile(Checked(hash), base + Encode(s.log[..k]), n0 + k)
  {
    hide NextReceipt, Canonical, CleanFile, VerifierLines, InDomain, Encode;
    if k == 0 {
      NoLines(base, s.log);
    } else {
      AllowedLines(hash, base, n0, s, k - 1);
      var before, c := s.log[..k - 1], s.log[k - 1];
      assert s.log[..k] == before + [c];
      EncodeOneMore(before, c);
      JoinBase(base, Encode(before), Canonical(c.receipt));
      assert LineAllowed(s, k - 1);
      EmitExtends(hash, base + Encode(before), n0 + (k - 1), s.calls[c.call].args, c.now);
    }
  }

  /** The first line the schema does not allow is rejected, with anything behind it. */
  lemma {:induction false} OutsideRejected(hash: string -> Digest, base: string, n0: nat, s: State, k: nat,
                                           more: seq<string>)
    requires CleanFile(Checked(hash), base, n0) && AllPlainCounts(s.calls) && Linear(hash, base, s)
    requires FirstOutside(s, k) && k < |s.log|
    ensures Verify(Checked(hash), (VerifierLines(base) + LogLines(s.log)) + more) == Rejected(n0 + k, SchemaInvalid)
  {
    hide NextReceipt, Canonical, VerifierLines, InDomain, Encode, LogLines, PlainCounts, Valid, Norm, Verify,
         ViewsAgree, UniversalNewlines, Verified;
    var before, c, after := s.log[..k], s.log[k], s.log[k + 1..];
    var file, a := base + Encode(before), s.calls[c.call].args;
    CleanIsChained(Checked(hash), base, n0);
    AllowedLines(hash, base, n0, s, k);
    WholeLines(hash, base, n0, s, k);
    DomainIsExact(hash, file, n0 + k, a, c.now);
    EmitAppends(Checked(hash), file, n0 + k, a, c.now);
    LinesAround(s.log, k);
    var first := VerifierLines(base) + LogLines(before) + [Canonical(c.receipt)];
    assert Verify(Checked(hash), first) == Rejected(n0 + k, SchemaInvalid);
    RejectionStays(Checked(hash), first, LogLines(after) + more);
    Regroup(VerifierLines(base), LogLines(before), [Canonical(c.receipt)], LogLines(after), more);
  }

  lemma {:induction false} LinesAround(log: seq<Commit>, k: nat)
    requires k < |log|
    ensures LogLines(log) == LogLines(log[..k]) + [Canonical(log[k].receipt)] + LogLines(log[k + 1..])
  {
    hide Canonical;
  }

  lemma {:induction false} Regroup<T>(a: seq<T>, b: seq<T>, c: seq<T>, d: seq<T>, e: seq<T>)
    ensures (a + b + c) + (d + e) == (a + (b + c + d)) + e
  {
  }

  // ---------- readers ----------

  /** What a reader that sees the file of `s` may say, `k` being the first line the schema does not allow:
    if there is one, it is rejected. Otherwise the reader accepts the whole lines; or, while a line
    is being written, also the one whose "\n" is still missing, or rejects exactly the entry after
    the whole lines: as bad JSON, or, with only the "\n" missing, by the schema. */
  ghost predicate VerdictAt(n0: nat, s: State, k: nat, verdict: Verdict) {
    var whole := n0 + |Callers(s.log)|;
    if k < |s.log| then verdict == Rejected(n0 + k, SchemaInvalid)
    else
      match verdict
      case Accepted(count) =>
        || (count == whole && s.stub == "")
        || (count == whole + 1
            && exists i :: 0 <= i < |s.calls| && LacksLineEnd(s, i) && InDomain(s.calls[i].args))
      case Rejected(index, fault) =>
        && index == whole && s.stub != ""
        && (|| fault == NotJson
            || (fault == SchemaInvalid &&
                exists i :: 0 <= i < |s.calls| && LacksLineEnd(s, i) && !InDomain(s.calls[i].args)))
  }

  /** A reader may look at any moment of any run. */
  lemma {:induction false} ReaderVerdict(hash: string -> Digest, base: string, n0: nat, s: State, k: nat)
    requires CleanFile(Checked(hash), base, n0) && Reachable(hash, base, s) && FirstOutside(s, k)
    ensures VerdictAt(n0, s, k, Verify(Checked(hash), VerifierLines(s.file)))
  {
    hide CleanFile, Reachable, FirstOutside, Verify, VerifierLines, Callers, LacksLineEnd, InDomain, LineAllowed,
         Chained, Inv, Linear, Logged, Locking, FileText, AllPlainCounts, SomeCrash, LogLines;
    CheckedIsChained(hash, base, n0);
    ReachableInv(hash, base, n0, s);
    InvParts(hash, base, s);
    LogCounts(s);
    FirstWithin(s, k);
    if k < |s.log| {
      FileLinesAre(hash, base, n0, s);
      OutsideRejected(hash, base, n0, s, k, if s.stub == "" then [] else [s.stub]);
    } else {
      AllAllowedVerdict(hash, base, n0, s);
    }
  }

  /** With no piece of an entry in the file: accepted exactly when the schema allows every line written,
    and otherwise rejected at the first it does not. */
  lemma {:induction false} WholeVerdict(hash: string -> Digest, base: string, n0: nat, s: State, k: nat)
    requires CleanFile(Checked(hash), base, n0) && Reachable(hash, base, s) && FirstOutside(s, k) && s.stub == ""
    ensures Verify(Checked(hash), VerifierLines(s.file)) ==
            if k == |s.log| then Accepted(n0 + |Callers(s.log)|) else Rejected(n0 + k, SchemaInvalid)
  {
    hide CleanFile, Reachable, FirstOutside, Verify, VerifierLines, Callers, InDomain;
    ReaderVerdict(hash, base, n0, s, k);
    FirstWithin(s, k);
    assert forall i :: 0 <= i < |s.calls| ==> !LacksLineEnd(s, i) by { NoneLacks(hash, base, n0, s); }
  }

  /** A ledger started empty, with no piece of an entry in it, verifies with one entry per call that
    wrote exactly when all of these had arguments in the schema's domain. */
  lemma {:induction false} FreshLedger(hash: string -> Digest, s: State)
    requires Reachable(hash, "", s) && s.stub == ""
    ensures Verify(Checked(hash), VerifierLines(s.file)) == Accepted(|Callers(s.log)|) <==>
            forall i :: i in Callers(s.log) ==> i < |s.calls| && InDomain(s.calls[i].args)
  {
    hide Reachable, Verify, VerifierLines, InDomain, CleanFile, Chained, LineAllowed, FirstOutside;
    EmptyIsClean(Checked(hash));
    var k := SomeFirstOutside(s, 0);
    WholeVerdict(hash, "", 0, s, k);
    FirstWithin(s, k);
    AllowedCallers(s, k);
  }

  lemma {:induction false} SomeFirstOutside(s: State, n: nat) returns (k: nat)
    requires n <= |s.log| && forall j :: 0 <= j < n ==> LineAllowed(s, j)
    ensures FirstOutside(s, k)
    decreases |s.log| - n
  {
    hide LineAllowed;
    if n < |s.log| && LineAllowed(s, n) { k := SomeFirstOutside(s, n + 1); } else { k := n; }
  }

  lemma {:induction false} AllowedCallers(s: State, k: nat)
    requires FirstOutside(s, k)
    ensures k == |s.log| <==> forall i :: i in Callers(s.log) ==> i < |s.calls| && InDomain(s.calls[i].args)
  {
    hide InDomain, Callers;
    CallersAre(s.log);
    if k < |s.log| {
      var i := s.log[k].call;
      assert !LineAllowed(s, k) && Recorded(s.log, i);
      assert i in Callers(s.log) && !(i < |s.calls| && InDomain(s.calls[i].args));
    } else {
      forall i | i in Callers(s.log) ensures i < |s.calls| && InDomain(s.calls[i].args) { CallerAllowed(s, i); }
    }
  }

  lemma {:induction false} CallerAllowed(s: State, i: nat)
    requires i in Callers(s.log) && forall j :: 0 <= j < |s.log| ==> LineAllowed(s, j)
    ensures i < |s.calls| && InDomain(s.calls[i].args)
  {
    hide InDomain, Callers;
    CallersAre(s.log);
    assert Recorded(s.log, i);
    var j :| 0 <= j < |s.log| && s.log[j].call == i;
    assert LineAllowed(s, j);
  }

  lemma {:induction false} NoneLacks(hash: string -> Digest, base: string, n0: nat, s: State)
    requires CleanFile(Checked(hash), base, n0) && Reachable(hash, base, s) && s.stub == ""
    ensures forall i :: 0 <= i < |s.calls| ==> !LacksLineEnd(s, i)
  {
    hide CleanFile, Reachable, Canonical, NextReceipt, Encode;
    CheckedIsChained(hash, base, n0);
    ReachableInv(hash, base, n0, s);
    forall i | 0 <= i < |s.calls| ensures !LacksLineEnd(s, i) {
      if LacksLineEnd(s, i) {
        LastPieceIs(hash, base, s, i);
        AllWholeLines(hash, base, n0, s);
        EmitChains(hash, base + Encode(s.log), n0 + |s.log|, s.calls[i].args, s.calls[i].phase.now);
        CanonicalStart(s.calls[i].phase.receipt);
      }
    }
  }

  lemma {:induction false} CheckedIsChained(hash: string -> Digest, base: string, n0: nat)
    requires CleanFile(Checked(hash), base, n0)
    ensures Chained(hash, base, n0)
  {
    hide CleanFile, Chained;
    CleanIsChained(Checked(hash), base, n0);
  }

  lemma {:induction false} FirstWithin(s: State, k: nat)
    requires FirstOutside(s, k)
    ensures k <= |s.log| && (k == |s.log| ==> forall j :: 0 <= j < |s.log| ==> LineAllowed(s, j))
  {
  }

  lemma {:induction false} AllAllowedVerdict(hash: string -> Digest, base: string, n0: nat, s: State)
    requires CleanFile(Checked(hash), base, n0) && Chained(hash, base, n0) && Inv(hash, base, s)
    requires forall j :: 0 <= j < |s.log| ==> LineAllowed(s, j)
    ensures match Verify(Checked(hash), VerifierLines(s.file))
            case Accepted(count) =>
              || (count == n0 + |s.log| && s.stub == "")
              || (count == n0 + |s.log| + 1
                  && exists i :: 0 <= i < |s.calls| && LacksLineEnd(s, i) && InDomain(s.calls[i].args))
            case Rejected(index, fault) =>
              && index == n0 + |s.log| && s.stub != ""
              && (|| fault == NotJson
                  || (fault == SchemaInvalid &&
                      exists i :: 0 <= i < |s.calls| && LacksLineEnd(s, i) && !InDomain(s.calls[i].args)))
  {
    hide VerifierLines, Encode, Canonical, TornEntry, NextReceipt, Inv, LacksLineEnd, PlainCounts, InDomain, Verify,
         LineAllowed, Chained, ViewsAgree, UniversalNewlines;
    StubIs(hash, base, n0, s);
    InvParts(hash, base, s);
    AllowedLines(hash, base, n0, s, |s.log|);
    assert s.log[..|s.log|] == s.log;
    var whole := base + Encode(s.log);
    if s.stub != "" {
      if TornEntry(s.stub) {
        TornTailVerdict(Checked(hash), whole, n0 + |s.log|, s.stub);
      } else {
        var i :| 0 <= i < |s.calls| && LacksLineEnd(s, i);
        LineLacking(hash, base, n0, s, i);
      }
    }
  }

  lemma {:induction false} LineLacking(hash: string -> Digest, base: string, n0: nat, s: State, i: nat)
    requires CleanFile(Checked(hash), base + Encode(s.log), n0 + |s.log|) && Inv(hash, base, s)
    requires i < |s.calls| && LacksLineEnd(s, i)
    ensures Verify(Checked(hash), VerifierLines(base + Encode(s.log) + s.stub)) ==
            if InDomain(s.calls[i].args) then Accepted(n0 + |s.log| + 1) else Rejected(n0 + |s.log|, SchemaInvalid)
  {
    hide VerifierLines, Encode, Canonical, NextReceipt, Inv, LacksLineEnd, PlainCounts, InDomain, Verify, Valid, Norm,
         ViewsAgree, UniversalNewlines, Verified;
    var whole, call := base + Encode(s.log), s.calls[i];
    LastPieceIs(hash, base, s, i);
    LacksText(s, i);
    CleanIsChained(Checked(hash), whole, n0 + |s.log|);
    EmittedIsValid(hash, whole, n0 + |s.log|, call.args, call.phase.now);
    UnterminatedVerdict(Checked(hash), whole, n0 + |s.log|, call.args, call.phase.now);
  }

  // ---------- ever after ----------

  /** Once a line outside the schema's domain is written, every later state of the run is rejected at it. */
  lemma {:induction false} RejectedForever(hash: string -> Digest, base: string, n0: nat, states: seq<State>,
                                           events: seq<Event>, j: nat, k: nat, b: nat)
    requires CleanFile(Checked(hash), base, n0) && IsRun(hash, states, events) && Initial(base, states[0])
    requires j <= k < |states| && FirstOutside(states[j], b) && b < |states[j].log|
    ensures Verify(Checked(hash), VerifierLines(states[k].file)) == Rejected(n0 + b, SchemaInvalid)
  {
    hide *;
    RunExtends(hash, states, events, j, k);
    CheckedIsChained(hash, base, n0);
    RunInv(hash, base, n0, states, events, j);
    RunInv(hash, base, n0, states, events, k);
    StillRejected(hash, base, n0, states[j], states[k], b);
  }

  lemma {:induction false} StillRejected(hash: string -> Digest, base: string, n0: nat, s: State, s': State, b: nat)
    requires CleanFile(Checked(hash), base, n0) && Inv(hash, base, s) && Inv(hash, base, s')
    requires Extends(s, s') && FirstOutside(s, b) && b < |s.log|
    ensures Verify(Checked(hash), VerifierLines(s'.file)) == Rejected(n0 + b, SchemaInvalid)
  {
    hide *;
    CheckedIsChained(hash, base, n0);
    InvParts(hash, base, s);
    InvParts(hash, base, s');
    StillOutside(s, s', b);
    FileLinesAre(hash, base, n0, s');
    OutsideRejected(hash, base, n0, s', b, if s'.stub == "" then [] else [s'.stub]);
  }

  lemma {:induction false} StillOutside(s: State, s': State, b: nat)
    requires FirstOutside(s, b) && b < |s.log| && Extends(s, s') && Logged(s)
    ensures FirstOutside(s', b) && b < |s'.log|
  {
    hide InDomain;
    forall j | 0 <= j < |s.log| ensures LineAllowed(s', j) <==> LineAllowed(s, j) {
      assert s'.log[j] == s.log[j];
      assert Appended(s.calls[s.log[j].call].phase, s.log[j].receipt);
    }
  }

  // ---------- a reader that reads in pieces ----------

  /** `size` characters, read in state number `at`, from where the piece before it ended. */
  datatype Piece = Piece(at: nat, size: nat)

  function Offset(pieces: seq<Piece>): nat {
    if pieces == [] then 0 else Offset(pieces[..|pieces| - 1]) + pieces[|pieces| - 1].size
  }

  /** The pieces come one after the other, each from the text there is at its time. */
  ghost predicate Readable(states: seq<State>, pieces: seq<Piece>) {
    && (forall i :: 0 <= i < |pieces| ==> Fits(states, pieces, i))
    && (forall i, j :: 0 <= i < j < |pieces| ==> pieces[i].at <= pieces[j].at)
  }

  predicate Fits(states: seq<State>, pieces: seq<Piece>, i: nat)
    requires i < |pieces|
  {
    pieces[i].at < |states| && Offset(pieces[..i + 1]) <= |states[pieces[i].at].file|
  }

  /** What the pieces put together. */
  function Gathered(states: seq<State>, pieces: seq<Piece>): string
    requires Readable(states, pieces)
  {
    if pieces == [] then ""
    else
      var init, last := pieces[..|pieces| - 1], pieces[|pieces| - 1];
      ReadableInit(states, pieces);
      Gathered(states, init) + states[last.at].file[Offset(init)..Offset(pieces)]
  }

  lemma {:induction false} ReadableInit(states: seq<State>, pieces: seq<Piece>)
    requires Readable(states, pieces) && pieces != []
    ensures Readable(states, pieces[..|pieces| - 1])
    ensures Offset(pieces[..|pieces| - 1]) <= Offset(pieces)
    ensures pieces[|pieces| - 1].at < |states| && Offset(pieces) <= |states[pieces[|pieces| - 1].at].file|
  {
    hide Offset;
    var init := pieces[..|pieces| - 1];
    forall i | 0 <= i < |init| ensures Fits(states, init, i) {
      assert Fits(states, pieces, i);
      assert init[..i + 1] == pieces[..i + 1];
    }
    assert Fits(states, pieces, |pieces| - 1);
    assert pieces[..|pieces| - 1 + 1] == pieces;
    OffsetGrows(pieces);
  }

  lemma {:induction false} OffsetGrows(pieces: seq<Piece>)
    requires pieces != []
    ensures Offset(pieces) == Offset(pieces[..|pieces| - 1]) + pieces[|pieces| - 1].size
  {
  }

  /** However the emits run between the pieces, together they are the start of the file as it is at
    the last of them; a reader that then meets the end of the file has that file. */
  lemma {:induction false} PiecesAreSnapshot(hash: string -> Digest, states: seq<State>, events: seq<Event>,
                                             pieces: seq<Piece>)
    requires IsRun(hash, states, events) && Readable(states, pieces) && pieces != []
    ensures pieces[|pieces| - 1].at < |states|
    ensures var file := states[pieces[|pieces| - 1].at].file;
            && Offset(pieces) <= |file| && Gathered(states, pieces) == file[..Offset(pieces)]
            && (Offset(pieces) == |file| ==> Gathered(states, pieces) == file)
    decreases |pieces|
  {
    hide IsRun, Readable, Offset;
    ReadableInit(states, pieces);
    OffsetGrows(pieces);
    var init, last := pieces[..|pieces| - 1], pieces[|pieces| - 1];
    var file := states[last.at].file;
    if init == [] {
      NoPieces(states, init);
      assert [] + file[..Offset(pieces)] == file[..Offset(pieces)];
    } else {
      PiecesAreSnapshot(hash, states, events, init);
      InOrder(states, pieces);
      AppendOnly(hash, states, events, init[|init| - 1].at, last.at);
      assert states[init[|init| - 1].at].file[..Offset(init)] == file[..Offset(init)];
      assert file[..Offset(init)] + file[Offset(init)..Offset(pieces)] == file[..Offset(pieces)];
    }
    assert file[..|file|] == file;
  }

  lemma {:induction false} NoPieces(states: seq<State>, pieces: seq<Piece>)
    requires Readable(states, pieces) && pieces == []
    ensures Offset(pieces) == 0 && Gathered(states, pieces) == ""
  {
  }

  lemma {:induction false} InOrder(states: seq<State>, pieces: seq<Piece>)
    requires Readable(states, pieces) && |pieces| >= 2
    ensures pieces[|pieces| - 2].at <= pieces[|pieces| - 1].at < |states|
  {
    hide Offset;
    assert Fits(states, pieces, |pieces| - 1);
  }

  /** So `verify_ledger`, whenever it reads and in whatever pieces, gives the verdict of `ReaderVerdict`
    on the state in which it met the end of the file. */
  lemma {:induction false} PieceReaderVerdict(hash: string -> Digest, base: string, n0: nat, states: seq<State>,
                                              events: seq<Event>, pieces: seq<Piece>, k: nat)
    requires CleanFile(Checked(hash), base, n0) && IsRun(hash, states, events) && Initial(base, states[0])
    requires Readable(states, pieces) && pieces != [] && pieces[|pieces| - 1].at < |states|
    requires Offset(pieces) == |states[pieces[|pieces| - 1].at].file|
    requires FirstOutside(states[pieces[|pieces| - 1].at], k)
    ensures VerdictAt(n0, states[pieces[|pieces| - 1].at], k,
                      Verify(Checked(hash), VerifierLines(Gathered(states, pieces))))
  {
    hide *;
    var at := pieces[|pieces| - 1].at;
    PiecesAreSnapshot(hash, states, events, pieces);
    RunReachable(hash, base, states, events, at);
    ReaderVerdict(hash, base, n0, states[at], k);
  }

  lemma {:induction false} RunReachable(hash: string -> Digest, base: string, states: seq<State>, events: seq<Event>,
                                        k: nat)
    requires IsRun(hash, states, events) && Initial(base, states[0]) && k < |states|
    ensures Reachable(hash, base, states[k])
  {
    hide Initial, Enabled, NextState;
    assert RunTo(hash, base, states[k], states[..k + 1], events[..k]);
  }
}
