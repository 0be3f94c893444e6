/** What one emit does to a verified ledger, to a torn one, and to one that stops mid-line. */
module EmitterLaws {
  import opened Json
  import opened JsonCanonical
  import opened JsonPrefix
  import opened Lines
  import opened Receipts
  import opened Ledger
  import opened Emitter
  import opened EmitterDomain

  /** `verify_ledger` with the InferenceReceipt schema. */
  function Checked(hash: string -> Digest): Trust { Trust(hash, v => Valid(v)) }

  /** Sequence numbers and hashes alone, whatever the entries say. */
  function Lax(hash: string -> Digest): Trust { Trust(hash, v => true) }

  /** The content of the file is accepted with `n` entries. */
  ghost predicate Verified(t: Trust, file: string, n: nat) {
    Verify(t, VerifierLines(file)) == Accepted(n)
  }

  /** An accepted file both tools read alike and that stops at a line end. */
  ghost predicate CleanFile(t: Trust, file: string, n: nat) {
    Verified(t, file, n) && ViewsAgree(file) && Closed(UniversalNewlines(file), true)
  }

  /** A clean file with `n` entries in an unbroken chain, valid or not. */
  ghost predicate Chained(hash: string -> Digest, file: string, n: nat) {
    CleanFile(Lax(hash), file, n)
  }

  /** The empty ledger is clean, whatever the validator. */
  lemma {:induction false} EmptyIsClean(t: Trust)
    ensures CleanFile(t, "", 0)
  {
    assert UniversalNewlines("") == "" && SplitLines("") == [] && FileLines("") == [];
    assert VerifierLines("") == [] && EmitterLines("") == [];
  }

  /** What a stricter validator accepts is chained. */
  lemma {:induction false} CleanIsChained(t: Trust, file: string, n: nat)
    requires CleanFile(t, file, n)
    ensures Chained(t.hash, file, n)
  {
    hide VerifierLines, Loads, Find, Canonical;
    var lines := VerifierLines(file);
    VerifyDecides(t, lines);
    VerifyDecides(Lax(t.hash), lines);
    forall i | 0 <= i < |lines| ensures GoodEntry(Lax(t.hash), lines, i) {
      assert GoodEntry(t, lines, i);
    }
  }

  // ---------- canonical lines ----------

  /** The canonical text of an object is one non-blank line that starts with a brace. */
  lemma {:induction false} CanonicalLine(r: Value)
    requires r.Obj? && Plain(r)
    ensures var line := Canonical(r);
            && line != "" && line[0] == '{' && NoBoundary(line) && !Blank(line) && Breaks(line)
            && SkipSpace(line) == line
            && (forall i :: 0 <= i < |line| ==> line[i] != '\r' && line[i] != '\n')
  {
    CanonicalPrintable(r);
    var line := Canonical(r);
    CanonicalStart(r);
    hide Canonical;
    assert !IsStripped(line[0]);
  }

  lemma {:induction false} CanonicalStart(r: Value)
    requires r.Obj?
    ensures Canonical(r) != "" && Canonical(r)[0] == '{'
  {
    hide PrintFields, Sort;
  }

  lemma {:induction false} LoadsChop(line: string)
    requires Loads(Chop(line)).Some?
    ensures Loads(line) == Loads(Chop(line))
  {
    hide Loads, SkipSpace;
    if Chop(line) != line {
      LoadsAppend(Chop(line), "\n");
      SkipLineEnd();
      assert line == Chop(line) + "\n";
    }
  }

  lemma {:induction false} SkipLineEnd()
    ensures SkipSpace("\n") == ""
  {
    assert "\n"[1..] == "";
  }

  // ---------- the entry an emit builds on ----------

  /** The last non-blank file line has no line end of `str.splitlines()` inside. */
  ghost predicate Whole(file: string) {
    var lines := EmitterLines(file);
    lines == [] || NoBoundary(Chop(lines[|lines| - 1]))
  }

  lemma {:induction false} WholeIfViewsAgree(file: string)
    requires ViewsAgree(file)
    ensures Whole(file)
  {
    hide UniversalNewlines, SplitLines, FileLines, Chop, EmitterLines, NoBoundary, VerifierLines;
    var lines := EmitterLines(file);
    if lines != [] {
      var k := |lines| - 1;
      assert VerifierLines(file)[k] == ChopAll(lines)[k] == Chop(lines[k]);
      VerifierLineIsPiece(file, k);
    }
  }

  lemma {:induction false} VerifierLineIsPiece(file: string, k: nat)
    requires k < |VerifierLines(file)|
    ensures NoBoundary(VerifierLines(file)[k])
  {
    hide UniversalNewlines, SplitLines, IsBoundary, IsStripped, NoBoundary;
    PiecesOf(UniversalNewlines(file));
    assert VerifierLines(file)[k] in SplitLines(UniversalNewlines(file));
  }

  lemma {:induction false} GoodLines(t: Trust, file: string, n: nat)
    requires Verified(t, file, n)
    ensures n == |VerifierLines(file)|
    ensures forall i :: 0 <= i < n ==>
              GoodEntry(t, VerifierLines(file), i) && Loads(VerifierLines(file)[i]).Some?
  {
    hide VerifierLines, Loads, Valid, Find;
    VerifyDecides(t, VerifierLines(file));
    forall i | 0 <= i < n ensures Loads(VerifierLines(file)[i]).Some? {
      assert GoodEntry(t, VerifierLines(file), i);
    }
  }

  /** On a verified file, `_last_entry` is the verifier's last entry, or it raises: the latter
    exactly when the last file line has a `str.splitlines()` line end inside. */
  lemma {:induction false} LastEntryAgrees(t: Trust, file: string, n: nat)
    requires Verified(t, file, n)
    ensures n == |VerifierLines(file)|
    ensures LastEntry(file) == if Whole(file) then Success(LastValue(VerifierLines(file))) else Raised(TailNotJson)
  {
    hide Loads, SplitLines, FileLines, UniversalNewlines, Chop, NonBlank, Valid, Find, IsBoundary, IsStripped;
    GoodLines(t, file, n);
    var u := UniversalNewlines(file);
    if EmitterLines(file) == [] {
      BlankFile(u);
    } else {
      NoCarriageReturn(file);
      var prior, last := LastFileLine(u);
      hide Verified;
      assert !Blank(last);
      if NoBoundary(Chop(last)) {
        OneLineViews(last);
        OneChopped(last);
        assert Loads(VerifierLines(file)[n - 1]).Some?;
        LoadsChop(last);
      } else {
        BrokenIsBad(prior, last, VerifierLines(file));
      }
    }
  }

  lemma {:induction false} BrokenIsBad(prior: seq<string>, last: string, lines: seq<string>)
    requires !NoBoundary(Chop(last)) && (forall i :: 0 <= i < |last| - 1 ==> last[i] != '\n') && '\r' !in last
    requires lines == prior + NonBlank(SplitLines(last))
    requires forall i :: 0 <= i < |lines| ==> Loads(lines[i]).Some?
    ensures Loads(last) == None
  {
    hide Loads, SplitLines, NonBlank, Chop;
    var p, t := BrokenLine(last);
    assert !Blank(p) ==> lines[|prior|] == p;
    StrangeEndIsBad(p, t);
  }

  lemma {:induction false} OneChopped(last: string)
    requires !Blank(last)
    ensures ChopAll(NonBlank([last])) == [Chop(last)]
  {
    KeptAlone(last);
  }

  /** A line end JSON does not know, after an entry or after white space. */
  lemma {:induction false} StrangeEndIsBad(p: string, t: string)
    requires t != "" && IsStripped(t[0]) && !IsSpace(t[0])
    requires Blank(p) || Loads(p).Some?
    ensures Loads(p + t) == None
  {
    hide Parse, ParseItems, ParseFields, ParseMember;
    if !Blank(p) {
      LoadsAppend(p, t);
    } else if SkipSpace(p) == "" {
      SkipAllAppend(p, t);
      StrangeSpaceIsBad(t);
    } else {
      SkipAppend(p, t);
      SkipIsSuffix(p);
      StrangeSpaceIsBad(SkipSpace(p) + t);
    }
  }

  /** Emitting after `n` verified entries builds entry `n` on the last one, or raises. */
  lemma {:induction false} NextReceiptIs(t: Trust, file: string, n: nat, a: Args, now: string)
    requires Verified(t, file, n)
    ensures n == |VerifierLines(file)|
    ensures n > 0 ==> LastValue(VerifierLines(file)).Some?
    ensures NextReceipt(t.hash, file, a, now) ==
            if Whole(file) then Success(Receipt(t.hash, a, now, n, LastValue(VerifierLines(file))))
            else Raised(TailNotJson)
  {
    hide Loads, VerifierLines, LastEntry, Receipt, Valid, Find, Whole;
    LastEntryAgrees(t, file, n);
    GoodLines(t, file, n);
    if n > 0 {
      assert GoodEntry(t, VerifierLines(file), n - 1);
      var v := Loads(VerifierLines(file)[n - 1]).value;
      NonEmptyIfFound(v.fields, "ledgerSeq");
    }
  }

  lemma {:induction false} NonEmptyIfFound(fields: seq<Field>, key: string)
    requires Find(fields, key).Some?
    ensures fields != []
  {
  }

  /** The new line, read back by the verifier, follows `prev`; only the validator may object. */
  lemma {:induction false} NewEntryFault(t: Trust, a: Args, now: string, n: nat, prev: Option<Value>)
    requires PlainCounts(a) && (n >= 1 ==> prev.Some?)
    ensures var r := Receipt(t.hash, a, now, n, prev);
            && r.Obj? && Plain(r) && Find(r.fields, "ledgerSeq") == Some(Num(n))
            && Loads(Canonical(r)) == Some(Norm(r))
            && EntryFault(t, prev, n, Canonical(r)) == if t.valid(Norm(r)) then None else Some(SchemaInvalid)
  {
    hide Loads, Canonical, Find, Receipt, PlainCounts, Sort, NormFields;
    var r := Receipt(t.hash, a, now, n, prev);
    ReceiptIsObj(t.hash, a, now, n, prev);
    ReceiptPlain(t.hash, a, now, n, prev);
    LoadsCanonical(r);
    ReceiptFinds(t.hash, a, now, n, prev);
    ReceiptKeys(t.hash, a, now, n, prev);
    FindNormalized(r.fields, "ledgerSeq");
    FindNormalized(r.fields, "ledgerPrevHash");
  }

  // ---------- one emit ----------

  /** One emit extends a clean ledger by one line: it succeeds, the receipt is entry `n`, and the
    longer file is clean with `n + 1` entries unless the validator rejects the new one. */
  lemma {:induction false} EmitAppends(t: Trust, file: string, n: nat, a: Args, now: string)
    requires CleanFile(t, file, n) && PlainCounts(a)
    ensures var r := NextReceipt(t.hash, file, a, now);
            && r.Success? && r.value.Obj? && Plain(r.value)
            && Find(r.value.fields, "ledgerSeq") == Some(Num(n))
            && VerifierLines(file + Canonical(r.value) + "\n") == VerifierLines(file) + [Canonical(r.value)]
            && (t.valid(Norm(r.value)) ==> CleanFile(t, file + Canonical(r.value) + "\n", n + 1))
            && (!t.valid(Norm(r.value)) ==>
                  Verify(t, VerifierLines(file + Canonical(r.value) + "\n")) == Rejected(n, SchemaInvalid))
  {
    hide Loads, Canonical, Find, Receipt, PlainCounts, EntryFault, VerifierLines, EmitterLines, UniversalNewlines,
         Whole, Norm;
    var prev := LastValue(VerifierLines(file));
    WholeIfViewsAgree(file);
    NextReceiptIs(t, file, n, a, now);
    var r := Receipt(t.hash, a, now, n, prev);
    NewEntryFault(t, a, now, n, prev);
    CanonicalLine(r);
    CleanAppend(file, Canonical(r));
    LastEntryAgrees(t, file, n);
    AcceptsOneMore(t, VerifierLines(file), Canonical(r));
  }

  /** Whatever the arguments, the chain goes on. */
  lemma {:induction false} EmitChains(hash: string -> Digest, file: string, n: nat, a: Args, now: string)
    requires Chained(hash, file, n) && PlainCounts(a)
    ensures var r := NextReceipt(hash, file, a, now);
            && r.Success? && r.value.Obj? && Plain(r.value)
            && Find(r.value.fields, "ledgerSeq") == Some(Num(n))
            && VerifierLines(file + Canonical(r.value) + "\n") == VerifierLines(file) + [Canonical(r.value)]
            && Chained(hash, file + Canonical(r.value) + "\n", n + 1)
  {
    hide Canonical, Find, PlainCounts, VerifierLines, CleanFile, NextReceipt, Verify;
    EmitAppends(Lax(hash), file, n, a, now);
  }

  /** The receipt of an emit meets the schema exactly when the arguments are in its domain. */
  lemma {:induction false} EmittedIsValid(hash: string -> Digest, file: string, n: nat, a: Args, now: string)
    requires Chained(hash, file, n)
    ensures var r := NextReceipt(hash, file, a, now); r.Success? && (Valid(Norm(r.value)) <==> InDomain(a))
  {
    hide Valid, Norm, InDomain, Receipt, VerifierLines, Whole, NextReceipt, Verified, EmitterLines, UniversalNewlines;
    WholeIfViewsAgree(file);
    NextReceiptIs(Lax(hash), file, n, a, now);
    SchemaDecides(hash, a, now, n, LastValue(VerifierLines(file)));
  }

  /** With arguments in the schema's domain the longer ledger is clean, and the receipt valid. */
  lemma {:induction false} EmitExtends(hash: string -> Digest, file: string, n: nat, a: Args, now: string)
    requires CleanFile(Checked(hash), file, n) && InDomain(a)
    ensures var r := NextReceipt(hash, file, a, now);
            && r.Success? && r.value.Obj? && Plain(r.value) && Valid(Norm(r.value))
            && Find(r.value.fields, "ledgerSeq") == Some(Num(n))
            && CleanFile(Checked(hash), file + Canonical(r.value) + "\n", n + 1)
            && VerifierLines(file + Canonical(r.value) + "\n") == VerifierLines(file) + [Canonical(r.value)]
  {
    hide Canonical, Find, PlainCounts, VerifierLines, CleanFile, NextReceipt, Verify, InDomain, Valid, Norm, Chained;
    DomainIsPlain(a);
    CleanIsChained(Checked(hash), file, n);
    EmittedIsValid(hash, file, n, a, now);
    EmitAppends(Checked(hash), file, n, a, now);
  }

  /** One emit on a clean ledger, whatever the arguments: `verify_ledger` accepts the longer ledger
    exactly when they are in the schema's domain, and otherwise rejects the new entry. */
  lemma {:induction false} DomainIsExact(hash: string -> Digest, file: string, n: nat, a: Args, now: string)
    requires CleanFile(Checked(hash), file, n) && PlainCounts(a)
    ensures var r := NextReceipt(hash, file, a, now);
            && r.Success?
            && Verify(Checked(hash), VerifierLines(file + Canonical(r.value) + "\n")) ==
               if InDomain(a) then Accepted(n + 1) else Rejected(n, SchemaInvalid)
  {
    hide Canonical, Find, PlainCounts, VerifierLines, NextReceipt, Verify, InDomain, Valid, Norm, Chained, ViewsAgree,
         UniversalNewlines;
    CleanIsChained(Checked(hash), file, n);
    EmittedIsValid(hash, file, n, a, now);
    EmitAppends(Checked(hash), file, n, a, now);
  }

  /** Both views gain exactly the appended line. */
  lemma {:induction false} CleanAppend(file: string, line: string)
    requires ViewsAgree(file) && Closed(UniversalNewlines(file), true)
    requires NoBoundary(line) && !Blank(line)
    ensures VerifierLines(file + line + "\n") == VerifierLines(file) + [line]
    ensures ViewsAgree(file + line + "\n")
    ensures Closed(UniversalNewlines(file + line + "\n"), true)
  {
    hide UniversalNewlines, SplitLines, FileLines, NonBlank;
    var u := UniversalNewlines(file);
    AppendLine(file, line);
    ClosedHasNoTail(u);
    assert "" + line == line;
    AppendFileLine(file, line);
    ChopAllAppend(EmitterLines(file), [line + "\n"]);
    assert ChopAll([line + "\n"]) == [line];
  }

  lemma {:induction false} ClosedHasNoTail(u: string)
    requires Closed(u, true)
    ensures Tail(u) == "" && Head(u) == u
  {
  }

  // ---------- one emit on any verified file ----------

  /** An emit on any verified file. It raises exactly when the last file line has a
    `str.splitlines()` line end inside. Otherwise, if what follows the last line end is JSON white
    space, the new entry is judged by the schema; if not, the glued line is not JSON. */
  lemma {:induction false} EmitOnVerified(hash: string -> Digest, file: string, n: nat, a: Args, now: string)
    requires Verified(Checked(hash), file, n) && PlainCounts(a)
    ensures var tail := Tail(UniversalNewlines(file));
            match NextReceipt(hash, file, a, now)
            case Raised(why) => why == TailNotJson && !Whole(file)
            case Success(r) =>
              && Whole(file)
              && match Verify(Checked(hash), VerifierLines(file + Canonical(r) + "\n"))
                 case Accepted(count) => SkipSpace(tail) == "" && InDomain(a) && count == n + 1
                 case Rejected(i, fault) =>
                   if SkipSpace(tail) == "" then !InDomain(a) && fault == SchemaInvalid && i == n
                   else fault == NotJson && i == if Blank(tail) then n else n - 1
  {
    hide Loads, Canonical, Valid, Find, Receipt, InDomain, EntryFault, VerifierLines, UniversalNewlines, SkipSpace,
         Whole, Norm, PlainCounts, NextReceipt, Verify, Tail;
    var t := Checked(hash);
    NextReceiptIs(t, file, n, a, now);
    if Whole(file) {
      var prev := LastValue(VerifierLines(file));
      NewEntryFault(t, a, now, n, prev);
      SchemaDecides(hash, a, now, n, prev);
      CanonicalLine(Receipt(hash, a, now, n, prev));
      GluedVerdict(t, file, n, Canonical(Receipt(hash, a, now, n, prev)));
    }
  }

  /** A line written behind whatever the file stops with. */
  lemma {:induction false} GluedVerdict(t: Trust, file: string, n: nat, line: string)
    requires Verified(t, file, n) && n == |VerifierLines(file)|
    requires NoBoundary(line) && !Blank(line) && line[0] == '{' && SkipSpace(line) == line
    ensures var tail := Tail(UniversalNewlines(file));
            var verdict := Verify(t, VerifierLines(file + line + "\n"));
            if SkipSpace(tail) == "" then verdict == Judged(n, EntryFault(t, LastValue(VerifierLines(file)), n, line))
            else verdict.Rejected? && verdict.fault == NotJson && verdict.index == if Blank(tail) then n else n - 1
  {
    hide *;
    if Blank(Tail(UniversalNewlines(file))) {
      GlueToBlank(t, file, n, line);
      JudgedBad(n);
    } else {
      GlueToEntry(t, file, n, line);
    }
  }

  lemma {:induction false} JudgedBad(n: nat)
    ensures Judged(n, Some(NotJson)) == Rejected(n, NotJson)
  {
  }

  /** The verdict on `n` entries and one more. */
  function Judged(n: nat, fault: Option<Fault>): Verdict {
    match fault case None => Accepted(n + 1) case Some(f) => Rejected(n, f)
  }

  lemma {:induction false} GlueToBlank(t: Trust, file: string, n: nat, line: string)
    requires Verified(t, file, n) && n == |VerifierLines(file)| && Blank(Tail(UniversalNewlines(file)))
    requires NoBoundary(line) && !Blank(line) && line[0] == '{' && SkipSpace(line) == line
    ensures Verify(t, VerifierLines(file + line + "\n")) ==
            Judged(n, if SkipSpace(Tail(UniversalNewlines(file))) == ""
                      then EntryFault(t, LastValue(VerifierLines(file)), n, line) else Some(NotJson))
  {
    hide Loads, EntryFault, UniversalNewlines, SplitLines, SkipSpace, LastValue;
    var u := UniversalNewlines(file);
    AppendLine(file, line);
    SplitHeadTail(u);
    assert VerifierLines(file) == NonBlank(SplitLines(Head(u)));
    BlankTailLine(t, LastValue(VerifierLines(file)), n, Tail(u), line);
    AcceptsOneMore(t, VerifierLines(file), Tail(u) + line);
  }

  lemma {:induction false} GlueToEntry(t: Trust, file: string, n: nat, line: string)
    requires Verified(t, file, n) && n == |VerifierLines(file)| && !Blank(Tail(UniversalNewlines(file)))
    requires NoBoundary(line) && !Blank(line) && line[0] == '{' && SkipSpace(line) == line
    ensures n >= 1 && SkipSpace(Tail(UniversalNewlines(file))) != ""
    ensures Verify(t, VerifierLines(file + line + "\n")) == Rejected(n - 1, NotJson)
  {
    hide Loads, EntryFault, UniversalNewlines, SplitLines, SkipSpace, LastValue;
    var u := UniversalNewlines(file);
    var head, tail := NonBlank(SplitLines(Head(u))), Tail(u);
    AppendLine(file, line);
    SplitHeadTail(u);
    assert VerifierLines(file) == head + [tail];
    VerifyDecides(t, VerifierLines(file));
    assert GoodEntry(t, VerifierLines(file), n - 1);
    ValueIsNotSpace(tail);
    LoadsAppend(tail, line);
    PrefixAccepted(t, VerifierLines(file), n - 1);
    assert VerifierLines(file)[..n - 1] == head;
    AcceptsOneMore(t, head, tail + line);
    NotJsonFault(t, LastValue(head), n - 1, tail + line);
  }

  lemma {:induction false} ValueIsNotSpace(tail: string)
    requires Loads(tail).Some?
    ensures SkipSpace(tail) != ""
  {
    EmptyIsBad();
  }

  lemma {:induction false} NotJsonFault(t: Trust, prev: Option<Value>, i: nat, line: string)
    requires Loads(line) == None
    ensures EntryFault(t, prev, i, line) == Some(NotJson)
  {
  }

  /** White space in front of a line matters only if JSON does not know it. */
  lemma {:induction false} BlankTailLine(t: Trust, prev: Option<Value>, n: nat, tail: string,
                                         line: string)
    requires Blank(tail) && line != "" && line[0] == '{' && SkipSpace(line) == line
    ensures EntryFault(t, prev, n, tail + line) ==
            if SkipSpace(tail) == "" then EntryFault(t, prev, n, line) else Some(NotJson)
  {
    hide Parse, SkipSpace, Valid, Find, Canonical;
    if SkipSpace(tail) == "" {
      SkipAllAppend(tail, line);
      assert Loads(tail + line) == Loads(line);
    } else {
      SkipAppend(tail, line);
      SkipIsSuffix(tail);
      StrangeSpaceIsBad(SkipSpace(tail) + line);
    }
  }

  lemma {:induction false} SkipIsSuffix(s: string)
    requires Blank(s) && SkipSpace(s) != ""
    ensures IsStripped(SkipSpace(s)[0]) && !IsSpace(SkipSpace(s)[0])
  {
    if IsSpace(s[0]) { SkipIsSuffix(s[1..]); }
  }

  lemma {:induction false} StrangeSpaceIsBad(s: string)
    requires s != "" && IsStripped(s[0]) && !IsSpace(s[0])
    ensures Parse(s).Bad?
  {
    assert "-Infinity"[0] != s[0];
    assert !("-Infinity" <= s);
  }

  // ---------- torn tails ----------

  /** A nonempty proper prefix of the canonical text of an object. */
  ghost predicate TornEntry(p: string) {
    p != "" && exists fields :: TornFrom(p, fields)
  }

  ghost predicate TornFrom(p: string, fields: seq<Field>) {
    PlainFields(fields) && Torn(p, Canonical(Obj(fields)))
  }

  lemma {:induction false} TornEntryFacts(p: string)
    requires TornEntry(p)
    ensures Loads(p) == None && p[0] == '{' && NoBoundary(p) && !Blank(p)
    ensures forall i :: 0 <= i < |p| ==> p[i] != '\r'
  {
    hide Loads, Plain, Norm;
    var fields :| TornFrom(p, fields);
    var v := Obj(fields);
    assert Plain(v) by { ObjPlain(fields); }
    CanonicalLine(v);
    assert p[0] == Canonical(v)[0];
    NormPlain(v);
    NormIsObj(fields);
    assert PlainFields(Norm(v).fields) by { ObjPlain(Norm(v).fields); }
    TornObjectIsInvalid(COMPACT_ASCII, Norm(v).fields, p);
    assert !IsStripped(p[0]);
    forall i | 0 <= i < |p| ensures !IsBoundary(p[i]) && p[i] != '\r' { assert p[i] == Canonical(v)[i]; }
  }

  lemma {:induction false} NormIsObj(fields: seq<Field>)
    ensures Norm(Obj(fields)) == Obj(Norm(Obj(fields)).fields)
  {
  }

  /** After a clean file, an unterminated line is one more line in both views. */
  lemma {:induction false} UnterminatedLine(file: string, p: string)
    requires Closed(UniversalNewlines(file), true)
    requires p != "" && NoBoundary(p) && !Blank(p) && forall i :: 0 <= i < |p| ==> p[i] != '\r' && p[i] != '\n'
    ensures VerifierLines(file + p) == VerifierLines(file) + [p]
    ensures EmitterLines(file + p) == EmitterLines(file) + [p]
  {
    hide UniversalNewlines, NonBlank;
    var u := UniversalNewlines(file);
    UniversalAppend(file, p);
    UniversalKeeps(p);
    assert Closed(u, false);
    SplitLinesAppend(u, p);
    FileLinesAppend(u, p);
    OneLine(p, "");
    assert p + "" == p;
    NonBlankAppend(SplitLines(u), [p]);
    NonBlankAppend(FileLines(u), [p]);
    KeptAlone(p);
  }

  /** Fail-stop: on a torn tail the next emit raises, so nothing is chained onto a torn entry. */
  lemma {:induction false} TornTailRaises(hash: string -> Digest, file: string, p: string, a: Args, now: string)
    requires Closed(UniversalNewlines(file), true) && TornEntry(p)
    ensures NextReceipt(hash, file + p, a, now) == Raised(TailNotJson)
  {
    hide Loads, EmitterLines, UniversalNewlines, TornEntry;
    TornEntryFacts(p);
    UnterminatedLine(file, p);
  }

  /** A reader of a clean file followed by a piece of a canonical entry: it accepts the entries,
    or rejects exactly the torn one as bad JSON. */
  lemma {:induction false} TornTailVerdict(t: Trust, file: string, n: nat, p: string)
    requires CleanFile(t, file, n) && TornEntry(p)
    ensures Verify(t, VerifierLines(file + p)) == Rejected(n, NotJson)
  {
    hide Loads, VerifierLines, EmitterLines, UniversalNewlines, TornEntry, EntryFault;
    TornEntryFacts(p);
    UnterminatedLine(file, p);
    LastEntryAgrees(t, file, n);
    AcceptsOneMore(t, VerifierLines(file), p);
    NotJsonFault(t, LastValue(VerifierLines(file)), n, p);
  }

  /** The whole line without its "\n" already counts for a reader. */
  lemma {:induction false} UnterminatedVerdict(t: Trust, file: string, n: nat, a: Args, now: string)
    requires CleanFile(t, file, n) && PlainCounts(a)
    ensures NextReceipt(t.hash, file, a, now).Success?
    ensures var r := NextReceipt(t.hash, file, a, now).value;
            Verify(t, VerifierLines(file + Canonical(r))) ==
            if t.valid(Norm(r)) then Accepted(n + 1) else Rejected(n, SchemaInvalid)
  {
    hide Loads, Canonical, Find, Receipt, PlainCounts, EntryFault, VerifierLines, EmitterLines, UniversalNewlines,
         Whole, Norm;
    var prev := LastValue(VerifierLines(file));
    WholeIfViewsAgree(file);
    NextReceiptIs(t, file, n, a, now);
    var r := Receipt(t.hash, a, now, n, prev);
    NewEntryFault(t, a, now, n, prev);
    CanonicalLine(r);
    UnterminatedLine(file, Canonical(r));
    LastEntryAgrees(t, file, n);
    AcceptsOneMore(t, VerifierLines(file), Canonical(r));
  }
}
