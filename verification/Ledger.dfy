/** `verify_ledger`: the fold over the entries, what it decides, and what the chain protects. */
module Ledger {
  import opened Json
  import opened JsonLoaded
  import opened JsonCanonical
  import opened Lines
  import opened Receipts

  /** What verification is run with: the hash and the schema validator. */
  datatype Trust = Trust(hash: string -> Digest, valid: Value -> bool)

  /** `Raises` is the KeyError or TypeError of `r["ledgerSeq"]` on a value a lax validator let pass. */
  datatype Fault = NotJson | SchemaInvalid | Raises | WrongSeq | ChainBroken

  datatype Verdict = Accepted(count: nat) | Rejected(index: nat, fault: Fault)

  /** One turn of the loop: what is wrong with entry `i`, given the value before it. */
  function EntryFault(t: Trust, prev: Option<Value>, i: nat, line: string): Option<Fault> {
    match Loads(line)
    case None => Some(NotJson)
    case Some(r) =>
      if !t.valid(r) then Some(SchemaInvalid)
      else if !r.Obj? || Find(r.fields, "ledgerSeq").None? then Some(Raises)
      else if Find(r.fields, "ledgerSeq") != Some(Num(i)) then Some(WrongSeq)
      else if i >= 1 && prev.Some?
              && Find(r.fields, "ledgerPrevHash") != Some(Str(Sha256(t.hash,
                Canonical(prev.value)))) then Some(ChainBroken)
      else None
  }

  function VerifyFrom(t: Trust, lines: seq<string>, i: nat, prev: Option<Value>): Verdict
    requires i <= |lines|
    decreases |lines| - i
  {
    if i == |lines| then Accepted(i)
    else
      match EntryFault(t, prev, i, lines[i])
      case Some(fault) => Rejected(i, fault)
      case None => VerifyFrom(t, lines, i + 1, Loads(lines[i]))
  }

  function Verify(t: Trust, lines: seq<string>): Verdict {
    VerifyFrom(t, lines, 0, None)
  }

  /** The loop of `verify_ledger`; `None` stands for a ledger that does not exist. */
  method VerifyLedger(t: Trust, file: Option<string>) returns (verdict: Option<Verdict>)
    ensures file.None? ==> verdict == None
    ensures file.Some? ==> verdict == Some(Verify(t, VerifierLines(file.value)))
  {
    if file.None? {
      return None;
    }
    var lines := VerifierLines(file.value);
    var prev: Option<Value> := None;
    for i := 0 to |lines|
      invariant Verify(t, lines) == VerifyFrom(t, lines, i, prev)
    {
      var fault := EntryFault(t, prev, i, lines[i]);
      if fault.Some? {
        return Some(Rejected(i, fault.value));
      }
      prev := Loads(lines[i]);
    }
    return Some(Accepted(|lines|));
  }

  // ---------- the declarative specification ----------

  ghost predicate GoodEntry(t: Trust, lines: seq<string>, i: nat)
    requires i < |lines|
  {
    match Loads(lines[i])
    case None => false
    case Some(r) =>
      && t.valid(r) && r.Obj?
      && Find(r.fields, "ledgerSeq") == Some(Num(i))
      && (i >= 1 ==>
            && Loads(lines[i - 1]).Some?
            && Find(r.fields, "ledgerPrevHash") == Some(Str("sha256:" + t.hash(Canonical(Loads(lines[i - 1]).value)))))
  }

  ghost predicate GoodLedger(t: Trust, lines: seq<string>) {
    forall i :: 0 <= i < |lines| ==> GoodEntry(t, lines, i)
  }

  lemma {:induction false} VerifyFromDecides(t: Trust, lines: seq<string>, k: nat)
    requires k <= |lines| && forall i :: 0 <= i < k ==> GoodEntry(t, lines, i)
    ensures var prev := if k == 0 then None else Loads(lines[k - 1]);
            match VerifyFrom(t, lines, k, prev)
            case Accepted(n) => n == |lines| && GoodLedger(t, lines)
            case Rejected(j, _) => j < |lines| && !GoodEntry(t, lines, j) && forall i :: 0 <= i < j ==> GoodEntry(t,
              lines, i)
    decreases |lines| - k
  {
    hide Loads, Canonical;
    if k < |lines| {
      var prev := if k == 0 then None else Loads(lines[k - 1]);
      if k >= 1 { assert GoodEntry(t, lines, k - 1); }
      assert EntryFault(t, prev, k, lines[k]).None? <==> GoodEntry(t, lines, k);
      if GoodEntry(t, lines, k) { VerifyFromDecides(t, lines, k + 1); }
    }
  }

  /** Acceptance is the specification; a rejection names the least failing entry. */
  lemma {:induction false} VerifyDecides(t: Trust, lines: seq<string>)
    ensures Verify(t, lines).Accepted? <==> GoodLedger(t, lines)
    ensures Verify(t, lines).Accepted? ==> Verify(t, lines).count == |lines|
    ensures match Verify(t, lines)
            case Accepted(_) => true
            case Rejected(j, _) => j < |lines| && !GoodEntry(t, lines, j) && forall i :: 0 <= i < j ==> GoodEntry(t,
              lines, i)
  {
    hide Loads;
    VerifyFromDecides(t, lines, 0);
  }

  /** What is wrong with the entry that is named: the first of five things, in this order. */
  lemma {:induction false} RejectedFor(t: Trust, lines: seq<string>)
    requires Verify(t, lines).Rejected?
    ensures var i, fault := Verify(t, lines).index, Verify(t, lines).fault;
            i < |lines| && HasFault(t, lines, i, fault)
  {
    hide Loads, Canonical, EntryFault;
    RejectedFrom(t, lines, 0);
  }

  ghost predicate HasFault(t: Trust, lines: seq<string>, i: nat, fault: Fault)
    requires i < |lines|
  {
    match Loads(lines[i])
    case None => fault == NotJson
    case Some(r) =>
      if !t.valid(r) then fault == SchemaInvalid
      else match fault
        case Raises => r.Obj? ==> Find(r.fields, "ledgerSeq") == None
        case WrongSeq => r.Obj? && exists v :: Find(r.fields, "ledgerSeq") == Some(v) && v != Num(i)
        case ChainBroken =>
          && r.Obj? && Find(r.fields, "ledgerSeq") == Some(Num(i)) && i >= 1 && Loads(lines[i - 1]).Some?
          && Find(r.fields, "ledgerPrevHash") != Some(Str("sha256:" + t.hash(Canonical(Loads(lines[i - 1]).value))))
        case _ => false
  }

  lemma {:induction false} RejectedFrom(t: Trust, lines: seq<string>, k: nat)
    requires k <= |lines| && forall i :: 0 <= i < k ==> Loads(lines[i]).Some?
    ensures match VerifyFrom(t, lines, k, if k == 0 then None else Loads(lines[k - 1]))
            case Accepted(_) => true
            case Rejected(i, fault) => i < |lines| && HasFault(t, lines, i, fault)
    decreases |lines| - k
  {
    hide Loads, Canonical;
    if k < |lines| {
      var prev := if k == 0 then None else Loads(lines[k - 1]);
      var fault := EntryFault(t, prev, k, lines[k]);
      if fault.None? { RejectedFrom(t, lines, k + 1); }
    }
  }

  /** Truncation is not detected: every prefix of an accepted ledger is accepted. */
  lemma {:induction false} PrefixAccepted(t: Trust, lines: seq<string>, n: nat)
    requires n <= |lines| && Verify(t, lines).Accepted?
    ensures Verify(t, lines[..n]) == Accepted(n)
  {
    hide Loads, Canonical;
    VerifyDecides(t, lines);
    forall i | 0 <= i < n ensures GoodEntry(t, lines[..n], i) {
      assert GoodEntry(t, lines, i);
    }
    VerifyDecides(t, lines[..n]);
  }

  /** The value the next entry is chained to. */
  function LastValue(lines: seq<string>): Option<Value> {
    if lines == [] then None else Loads(lines[|lines| - 1])
  }

  lemma {:induction false} AcceptsOneMore(t: Trust, lines: seq<string>, line: string)
    requires Verify(t, lines).Accepted?
    ensures Verify(t, lines + [line]) ==
            match EntryFault(t, LastValue(lines), |lines|, line)
            case None => Accepted(|lines| + 1)
            case Some(fault) => Rejected(|lines|, fault)
  {
    hide Loads, Canonical;
    VerifyDecides(t, lines);
    VerifySplit(t, lines, line, 0);
  }

  lemma {:induction false} VerifySplit(t: Trust, lines: seq<string>, line: string, k: nat)
    requires k <= |lines| && GoodLedger(t, lines)
    ensures var prev := if k == 0 then None else Loads(lines[k - 1]);
            VerifyFrom(t, lines + [line], k, prev) ==
            match EntryFault(t, LastValue(lines), |lines|, line)
            case None => Accepted(|lines| + 1)
            case Some(fault) => Rejected(|lines|, fault)
    decreases |lines| - k
  {
    hide Loads, Canonical;
    var all := lines + [line];
    var prev := if k == 0 then None else Loads(lines[k - 1]);
    if k < |lines| {
      assert GoodEntry(t, lines, k);
      assert EntryFault(t, prev, k, all[k]).None?;
      VerifySplit(t, lines, line, k + 1);
    }
  }

  /** A rejection stays: what comes behind the rejected entry is never looked at. */
  lemma {:induction false} RejectionStays(t: Trust, lines: seq<string>, more: seq<string>)
    requires Verify(t, lines).Rejected?
    ensures Verify(t, lines + more) == Verify(t, lines)
  {
    hide Loads, Canonical, EntryFault;
    RejectionStaysFrom(t, lines, more, 0, None);
  }

  lemma {:induction false} RejectionStaysFrom(t: Trust, lines: seq<string>, more: seq<string>, i: nat,
                                              prev: Option<Value>)
    requires i <= |lines| && VerifyFrom(t, lines, i, prev).Rejected?
    ensures VerifyFrom(t, lines + more, i, prev) == VerifyFrom(t, lines, i, prev)
    decreases |lines| - i
  {
    hide Loads, EntryFault;
    assert i < |lines| ==> (lines + more)[i] == lines[i];
    if i < |lines| && EntryFault(t, prev, i, lines[i]).None? {
      RejectionStaysFrom(t, lines, more, i + 1, Loads(lines[i]));
    }
  }

  // ---------- tamper evidence ----------

  /** Two different texts with one hash. */
  ghost predicate Collision(hash: string -> Digest, x: string, y: string) {
    x != y && hash(x) == hash(y)
  }

  /** The value of a line of an accepted ledger. */
  function Entry(line: string): Value {
    match Loads(line) case Some(v) => v case None => Null
  }

  /** No entry holds a float. */
  ghost predicate FloatFreeLedger(lines: seq<string>) {
    forall i :: 0 <= i < |lines| ==> FloatFree(Entry(lines[i]))
  }

  /** `ledgerPrevHash` binds a text of `a` and a text of `b` with one hash. */
  lemma {:induction false} HashesEqual(t: Trust, x: string, y: string)
    requires Sha256(t.hash, x) == Sha256(t.hash, y)
    ensures t.hash(x) == t.hash(y)
  {
    assert Sha256(t.hash, x)[7..] == t.hash(x) && Sha256(t.hash, y)[7..] == t.hash(y);
  }

  lemma {:induction false} SameFind(v: Value, w: Value, key: string)
    requires Plain(v) && Plain(w) && v.Obj? && w.Obj? && Same(v, w)
    ensures Find(v.fields, key).Some? == Find(w.fields, key).Some?
    ensures Find(v.fields, key).Some? ==> Same(Find(v.fields, key).value, Find(w.fields, key).value)
  {
    SameKeys(v.fields, w.fields, key);
    if Find(v.fields, key).Some? {
      var i := FindSome(v.fields, key);
    }
  }

  /** Equal entries carry equal sequence numbers and equal predecessor hashes. */
  lemma {:induction false} EqualEntries(t: Trust, a: seq<string>, i: nat, b: seq<string>, j: nat)
    requires i < |a| && j < |b| && GoodEntry(t, a, i) && GoodEntry(t, b, j)
    requires FloatFree(Entry(a[i])) && FloatFree(Entry(b[j]))
    requires Canonical(Entry(a[i])) == Canonical(Entry(b[j]))
    ensures i == j
    ensures i >= 1 ==> t.hash(Canonical(Entry(a[i - 1]))) == t.hash(Canonical(Entry(b[j - 1])))
    ensures Same(Entry(a[i]), Entry(b[j]))
  {
    var v, w := Entry(a[i]), Entry(b[j]);
    LoadsPlain(a[i]);
    LoadsPlain(b[j]);
    CanonicalDecidesSame(v, w);
    SameFind(v, w, "ledgerSeq");
    if i >= 1 {
      SameFind(v, w, "ledgerPrevHash");
      HashesEqual(t, Canonical(Entry(a[i - 1])), Canonical(Entry(b[j - 1])));
    }
  }

  lemma {:induction false} HistoryBackwards(t: Trust, a: seq<string>, b: seq<string>, n: nat) returns (x: string,
                                            y: string)
    requires GoodLedger(t, a) && GoodLedger(t, b) && FloatFreeLedger(a) && FloatFreeLedger(b)
    requires n < |a| && n < |b|
    requires Canonical(Entry(a[n])) == Canonical(Entry(b[n]))
    ensures Collision(t.hash, x, y) || forall i :: 0 <= i <= n ==> Same(Entry(a[i]), Entry(b[i]))
  {
    hide Loads, Canonical, FloatFree, Same;
    x, y := "", "";
    assert GoodEntry(t, a, n) && GoodEntry(t, b, n);
    EqualEntries(t, a, n, b, n);
    if n >= 1 {
      x, y := Canonical(Entry(a[n - 1])), Canonical(Entry(b[n - 1]));
      if x == y {
        x, y := HistoryBackwards(t, a, b, n - 1);
      }
    }
  }

  /** The last entry fixes the whole history, or a hash collision is in hand. */
  lemma {:induction false} LastEntryFixesHistory(t: Trust, a: seq<string>, b: seq<string>) returns (x: string,
                                                 y: string)
    requires Verify(t, a).Accepted? && Verify(t, b).Accepted? && FloatFreeLedger(a) && FloatFreeLedger(b)
    requires a != [] && b != []
    requires Canonical(Entry(a[|a| - 1])) == Canonical(Entry(b[|b| - 1]))
    ensures || Collision(t.hash, x, y)
            || (|a| == |b| && forall i :: 0 <= i < |a| ==> Same(Entry(a[i]), Entry(b[i])))
  {
    hide Loads, Canonical, FloatFree, Same;
    VerifyDecides(t, a);
    VerifyDecides(t, b);
    assert GoodEntry(t, a, |a| - 1) && GoodEntry(t, b, |b| - 1);
    EqualEntries(t, a, |a| - 1, b, |b| - 1);
    x, y := HistoryBackwards(t, a, b, |a| - 1);
  }

  /** Changing one entry that is not the last is rejected there or at the next entry,
    unless the new entry is an equal value or collides with the old one. */
  lemma {:induction false} ChangeDetected(t: Trust, lines: seq<string>, k: nat, line: string) returns (x: string,
                                          y: string)
    requires Verify(t, lines).Accepted? && FloatFreeLedger(lines) && k + 1 < |lines|
    requires FloatFree(Entry(line)) && !Same(Entry(line), Entry(lines[k]))
    ensures || Collision(t.hash, x, y)
            || (match Verify(t, lines[k := line]) case Accepted(_) => false case Rejected(j, _) => k <= j <= k + 1)
  {
    hide Loads, Canonical, FloatFree, Same;
    var changed := lines[k := line];
    x, y := "", "";
    VerifyDecides(t, lines);
    VerifyDecides(t, changed);
    forall i | 0 <= i < k ensures GoodEntry(t, changed, i) {
      assert GoodEntry(t, lines, i);
    }
    if GoodEntry(t, changed, k) && GoodEntry(t, changed, k + 1) {
      assert GoodEntry(t, lines, k + 1) && GoodEntry(t, lines, k);
      x, y := Canonical(Entry(line)), Canonical(Entry(lines[k]));
      HashesEqual(t, x, y);
      LoadsPlain(line);
      LoadsPlain(lines[k]);
      CanonicalDecidesSame(Entry(line), Entry(lines[k]));
    }
  }

  /** The boundary of tamper evidence: the last entry may be replaced by anything that would
    have been a good entry at that place, and by nothing else. */
  lemma {:induction false} LastEntryUnprotected(t: Trust, lines: seq<string>, line: string)
    requires Verify(t, lines).Accepted? && lines != []
    ensures var k := |lines| - 1;
            Verify(t, lines[k := line]).Accepted? <==>
            EntryFault(t, LastValue(lines[..k]), k, line).None?
  {
    hide Loads, Canonical;
    var k := |lines| - 1;
    PrefixAccepted(t, lines, k);
    assert lines[k := line] == lines[..k] + [line];
    AcceptsOneMore(t, lines[..k], line);
  }
}
