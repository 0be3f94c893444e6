/** Where the ledger's promises end: for each limit proved elsewhere, an input that meets it. */
module Boundaries {
  import opened Json
  import opened JsonRoundTrip
  import opened JsonCanonical
  import opened Lines
  import opened Receipts
  import opened Ledger
  import opened Emitter
  import opened EmitterDomain
  import opened EmitterLaws
  import opened Gateway
  import opened GatewayLaws

  /** A small call that the schema allows. */
  function SampleArgs(hash: string -> Digest, task: string): Args {
    Args(Sha256(hash, ""), task, "", "", "inferenced", "T1", None, "cpu", Estimate, Estimate)
  }

  lemma {:induction false} SampleInDomain(hash: string -> Digest, task: string)
    ensures InDomain(SampleArgs(hash, task))
  {
    HashIsHashRef(hash, "");
    assert DAEMONS[0] == "inferenced" && TIERS[1] == "T1" && DEVICES[2] == "cpu";
    hide IsHashRef, Sha256, DAEMONS, TIERS, DEVICES;
  }

  /** The first receipt of an empty ledger. */
  function FirstReceipt(hash: string -> Digest, task: string, now: string): Value {
    match NextReceipt(hash, "", SampleArgs(hash, task), now) case Success(r) => r case Raised(_) => Null
  }

  lemma {:induction false} FirstReceiptIs(hash: string -> Digest, task: string, now: string)
    ensures var r := FirstReceipt(hash, task, now);
            && NextReceipt(hash, "", SampleArgs(hash, task), now) == Success(r) && r.Obj? && Plain(r)
            && CleanFile(Checked(hash), Canonical(r) + "\n", 1) && VerifierLines(Canonical(r) + "\n") == [Canonical(r)]
            && Find(Norm(r).fields, "task") == Some(Str(task))
  {
    hide NextReceipt, Canonical, InDomain, VerifierLines, Valid, Plain, Find, Verified, ViewsAgree, UniversalNewlines,
         Sort, NormFields, Carries;
    EmptyIsClean(Checked(hash));
    SampleInDomain(hash, task);
    EmitExtends(hash, "", 0, SampleArgs(hash, task), now);
    var r := FirstReceipt(hash, task, now);
    assert "" + Canonical(r) + "\n" == Canonical(r) + "\n";
    NoLinesInNothing();
    FirstCarries(hash, task, now);
    FindNormalized(r.fields, "task");
    assert [] + [Canonical(r)] == [Canonical(r)];
  }

  lemma {:induction false} NoLinesInNothing()
    ensures VerifierLines("") == []
  {
    assert UniversalNewlines("") == "" && SplitLines("") == [];
  }

  lemma {:induction false} FirstCarries(hash: string -> Digest, task: string, now: string)
    requires NextReceipt(hash, "", SampleArgs(hash, task), now).Success?
    ensures var r := FirstReceipt(hash, task, now);
            r.Obj? && Find(r.fields, "task") == Some(Str(task)) && Distinct(r.fields)
  {
    hide LastEntry, NextSeq, Receipt, Find, CarriesTexts, Sha256;
    var prev := LastEntry("").value;
    var n := NextSeq(prev).value;
    var a := SampleArgs(hash, task);
    ReceiptCarries(hash, a, now, n, prev);
    ReceiptIsObj(hash, a, now, n, prev);
    ReceiptKeys(hash, a, now, n, prev);
  }

  // ---------- the last entry ----------

  /** Two different entries, each accepted as the last one after the same (empty) history. */
  lemma {:induction false} TwoLastEntries(hash: string -> Digest, now: string)
    ensures var x, y := Canonical(FirstReceipt(hash, "a", now)), Canonical(FirstReceipt(hash, "b", now));
            x != y && Verify(Checked(hash), [x]) == Accepted(1) && Verify(Checked(hash), [y]) == Accepted(1)
  {
    hide FirstReceipt, Canonical, Verify, VerifierLines, Find, Norm, Plain, Loads, ViewsAgree, UniversalNewlines;
    FirstReceiptIs(hash, "a", now);
    FirstReceiptIs(hash, "b", now);
    LoadsCanonical(FirstReceipt(hash, "a", now));
    LoadsCanonical(FirstReceipt(hash, "b", now));
    assert "a" != "b";
  }

  // ---------- arguments outside the schema ----------

  /** A tier the schema does not know: the emit goes through, and verification rejects what it wrote. */
  lemma {:induction false} UnknownTierRejected(hash: string -> Digest, now: string)
    ensures var a := SampleArgs(hash, "a").(tier := "T9");
            && !InDomain(a) && NextReceipt(hash, "", a, now).Success?
            && Verify(Checked(hash), VerifierLines(Canonical(NextReceipt(hash, "", a, now).value) + "\n")) ==
               Rejected(0, SchemaInvalid)
  {
    hide NextReceipt, Canonical, VerifierLines, Verify, Sha256, IsHashRef;
    var a := SampleArgs(hash, "a").(tier := "T9");
    assert forall i :: 0 <= i < |TIERS| ==> TIERS[i][1] != "T9"[1];
    EmptyIsClean(Checked(hash));
    DomainIsExact(hash, "", 0, a, now);
    var line := Canonical(NextReceipt(hash, "", a, now).value);
    assert "" + line + "\n" == line + "\n";
  }

  /** A backend reply with a negative count. */
  function NegativeUsage(): Value {
    Obj([Field("choices", Arr([Obj([Field("message", Obj([Field("content", Str("hi"))]))])])),
         Field("usage", Obj([Field("prompt_tokens", Num(-1))]))])
  }

  function NegativeReply(): Reply {
    Reply(200, "application/json", Print(DEFAULT_ASCII, NegativeUsage()))
  }

  function EmptyRequest(): Request { Request(CHAT, Print(DEFAULT_ASCII, Obj([]))) }

  lemma {:induction false} NegativeFinds()
    ensures var body := NegativeUsage();
            && Find(body.fields, "choices") == Some(Arr([Obj([Field("message", Obj([Field("content", Str("hi"))]))])]))
            && Find(body.fields, "usage") == Some(Obj([Field("prompt_tokens", Num(-1))]))
            && Find([Field("prompt_tokens", Num(-1))], "prompt_tokens") == Some(Num(-1))
            && Find([Field("prompt_tokens", Num(-1))], "completion_tokens") == None
            && Find([Field("message", Obj([Field("content", Str("hi"))]))], "message") ==
               Some(Obj([Field("content", Str("hi"))]))
            && Find([Field("content", Str("hi"))], "content") == Some(Str("hi"))
  {
    assert |"choices"| == 7 && |"usage"| == 5 && |"prompt_tokens"| == 13 && |"completion_tokens"| == 17;
    assert NegativeUsage().fields[1..] == [Field("usage", Obj([Field("prompt_tokens", Num(-1))]))];
  }

  lemma {:induction false} NegativePlain()
    ensures Plain(NegativeUsage()) && Plain(Obj([]))
  {
    assert |"choices"| == 7 && |"usage"| == 5;
    var content := Obj([Field("content", Str("hi"))]);
    assert Plain(content);
    var choice := Obj([Field("message", content)]);
    assert Plain(choice);
    assert Plain(Arr([choice]));
    var usage := Obj([Field("prompt_tokens", Num(-1))]);
    assert Plain(usage);
  }

  lemma {:induction false} NegativeIsWellShaped()
    ensures WellShaped(CHAT, Obj([]), NegativeUsage())
    ensures UsageCount(NegativeUsage(), "prompt_tokens") == Num(-1)
  {
    NegativeFinds();
    assert Find([], "messages") == None;
    var message := [Field("content", Str("hi"))];
    var choices := [Obj([Field("message", Obj(message))])];
    hide Find;
    assert Spoken(NegativeUsage().fields, choices, message, "hi");
    assert ChatShape(NegativeUsage(), "hi");
  }

  lemma {:induction false} JsonType()
    ensures IsJson("application/json")
  {
    var s := "application/json";
    var lower := seq(|s|, i requires 0 <= i < |s| => LowerChar(s[i]));
    assert forall i :: 0 <= i < |s| ==> lower[i] == s[i];
    assert lower[0..] == s;
  }

  /** A gateway with a proper digest and a backend that reports a negative count: the request leaves a
    receipt, and on an empty ledger verification rejects it. */
  lemma {:induction false} NegativeCountRejected(hash: string -> Digest, show: Value -> string, now: string)
    ensures var config := Config([], Some(Sha256(hash, "")), show);
            var emission := Emission(config, EmptyRequest(), NegativeReply());
            && emission.Some? && !InDomain(emission.value)
            && NextReceipt(hash, "", emission.value, now).Success?
            && var line := Canonical(NextReceipt(hash, "", emission.value, now).value);
            Verify(Checked(hash), VerifierLines(line + "\n")) == Rejected(0, SchemaInvalid)
  {
    hide Loads, Print, NextReceipt, Canonical, VerifierLines, Verify, Sha256, IsHashRef, InDomain, Emission,
         NegativeUsage, UsageCount, WellShaped, IsJson, CleanFile, ReqModel, FloatFreeCounts;
    var config, digest := Config([], Some(Sha256(hash, "")), show), Sha256(hash, "");
    NegativePlain();
    LoadsDumps(DEFAULT_ASCII, NegativeUsage());
    LoadsDumps(DEFAULT_ASCII, Obj([]));
    NegativeIsWellShaped();
    JsonType();
    assert Prepare(EmptyRequest()) == Done(Send(CHAT, EmptyRequest().body, Direct));
    assert Qualifies(config, EmptyRequest(), NegativeReply(), digest);
    ReceiptInDomainIff(config, EmptyRequest(), NegativeReply(), digest);
    NegativeNotCount();
    EmptyIsClean(Checked(hash));
    EmissionArgs(config, EmptyRequest(), NegativeReply(), digest);
    NegativeFloatFree();
    RequestOnLedger(config, hash, "", 0, EmptyRequest(), NegativeReply(), digest, now);
    var line := Canonical(NextReceipt(hash, "", Emission(config, EmptyRequest(), NegativeReply()).value, now).value);
    assert "" + line + "\n" == line + "\n";
  }

  lemma {:induction false} NegativeNotCount()
    ensures !Meets(Nullable(Count), Num(-1))
  {
    assert Meets(Nullable(Count), Num(-1)) <==> Meets(Count, Num(-1));
  }

  lemma {:induction false} NegativeFloatFree()
    ensures FloatFreeCounts(NegativeReply())
  {
    hide Find, Loads, Print, Plain;
    NegativePlain();
    LoadsDumps(DEFAULT_ASCII, NegativeUsage());
    NegativeFinds();
  }

  // ---------- files that stop mid-line ----------

  /** A whole entry that lacks its "\n": the ledger verifies, and the next emit glues its line to it,
    so that verification rejects the entry that was good before. */
  lemma {:induction false} GluedEntryRejected(hash: string -> Digest, now: string)
    ensures var file, a := Canonical(FirstReceipt(hash, "a", now)), SampleArgs(hash, "b");
            && Verified(Checked(hash), file, 1) && NextReceipt(hash, file, a, now).Success?
            && Verify(Checked(hash), VerifierLines(file + Canonical(NextReceipt(hash, file, a, now).value) + "\n")) ==
               Rejected(0, NotJson)
  {
    hide FirstReceipt, Canonical, Verify, VerifierLines, Find, Norm, Plain, Loads, NextReceipt, SampleArgs,
         UniversalNewlines, InDomain, PlainCounts, SkipSpace, Tail, Valid, Whole, CleanFile;
    var r := FirstReceipt(hash, "a", now);
    var file, a := Canonical(r), SampleArgs(hash, "b");
    FirstReceiptIs(hash, "a", now);
    CanonicalLine(r);
    SampleInDomain(hash, "a");
    SampleInDomain(hash, "b");
    DomainIsPlain(SampleArgs(hash, "a"));
    DomainIsPlain(a);
    EmptyIsClean(Checked(hash));
    CleanIsChained(Checked(hash), "", 0);
    EmittedIsValid(hash, "", 0, SampleArgs(hash, "a"), now);
    UnterminatedVerdict(Checked(hash), "", 0, SampleArgs(hash, "a"), now);
    assert "" + file == file;
    EmitOnVerified(hash, file, 1, a, now);
    LineIsWhole(file);
    LineIsTail(file);
  }

  lemma {:induction false} LineIsTail(line: string)
    requires line != "" && NoBoundary(line) && !Blank(line) && SkipSpace(line) == line
    requires forall i :: 0 <= i < |line| ==> line[i] != '\r'
    ensures Tail(UniversalNewlines(line)) == line && SkipSpace(Tail(UniversalNewlines(line))) != ""
  {
    UniversalKeeps(line);
    TailOfLine(line);
    hide SkipSpace, UniversalNewlines, Tail;
  }

  lemma {:induction false} TailOfLine(line: string)
    requires NoBoundary(line)
    ensures Tail(line) == line
  {
    hide IsBoundary;
    if line != "" {
      TailOfLine(line[..|line| - 1]);
      assert line[..|line| - 1] + [line[|line| - 1]] == line;
    }
  }

  lemma {:induction false} LineIsWhole(line: string)
    requires line != "" && NoBoundary(line) && !Blank(line)
    requires forall i :: 0 <= i < |line| ==> line[i] != '\r' && line[i] != '\n'
    ensures Whole(line)
  {
    UniversalKeeps(line);
    OneLine(line, "");
    assert line + "" == line;
    KeptAlone(line);
    hide UniversalNewlines, FileLines, NonBlank, SplitLines;
    assert Chop(line) == line;
  }

  /** White space JSON does not know, here a no-break space: the empty ledger verifies, and the first
    entry written behind it is rejected. */
  lemma {:induction false} StrangeSpaceRejected(hash: string -> Digest, now: string)
    ensures var file, a := "\U{A0}", SampleArgs(hash, "a");
            && Verified(Checked(hash), file, 0) && NextReceipt(hash, file, a, now).Success?
            && Verify(Checked(hash), VerifierLines(file + Canonical(NextReceipt(hash, file, a, now).value) + "\n")) ==
               Rejected(0, NotJson)
  {
    hide Canonical, Verify, Loads, NextReceipt, SampleArgs, InDomain, PlainCounts, Valid;
    NoBreakSpace();
    hide VerifierLines, UniversalNewlines, Tail, Whole, SkipSpace;
    var file, a := "\U{A0}", SampleArgs(hash, "a");
    NothingVerified(Checked(hash));
    SampleInDomain(hash, "a");
    DomainIsPlain(a);
    EmitOnVerified(hash, file, 0, a, now);
  }

  lemma {:induction false} NothingVerified(t: Trust)
    ensures Verify(t, []) == Accepted(0)
  {
  }

  lemma {:induction false} NoBreakSpace()
    ensures var file := "\U{A0}";
            && VerifierLines(file) == [] && Whole(file)
            && Tail(UniversalNewlines(file)) == file && Blank(file) && SkipSpace(file) == file
  {
    var file := "\U{A0}";
    NoBreakChar();
    UniversalKeeps(file);
    TailOfLine(file);
    OneLine(file, "");
    hide UniversalNewlines, SplitLines, FileLines, IsBoundary, IsStripped, Tail, SkipSpace;
    assert file + "" == file;
    AllBlank([file]);
  }

  lemma {:induction false} NoBreakChar()
    ensures var file := "\U{A0}";
            && NoBoundary(file) && Blank(file) && SkipSpace(file) == file
            && forall i :: 0 <= i < |file| ==> file[i] != '\r' && file[i] != '\n'
  {
    assert forall i :: 0 <= i < |"\U{A0}"| ==> "\U{A0}"[i] == '\U{A0}';
  }

  /** A form feed behind an entry: `splitlines` cuts there and the ledger verifies, file iteration does
    not and the next emit raises. */
  lemma {:induction false} InnerLineEndRaises(hash: string -> Digest, now: string)
    ensures var file, a := Canonical(FirstReceipt(hash, "a", now)) + "\U{C}", SampleArgs(hash, "b");
            Verified(Checked(hash), file, 1) && NextReceipt(hash, file, a, now) == Raised(TailNotJson)
  {
    hide FirstReceipt, Canonical, Verify, Find, Norm, Plain, Loads, NextReceipt, SampleArgs, InDomain, PlainCounts,
         Valid, CleanFile, ViewsAgree;
    var r := FirstReceipt(hash, "a", now);
    var line, a := Canonical(r), SampleArgs(hash, "b");
    FirstReceiptIs(hash, "a", now);
    CanonicalLine(r);
    FormFeed(line);
    hide VerifierLines, Whole, UniversalNewlines;
    FirstVerified(hash, now);
    NextReceiptIs(Checked(hash), line + "\U{C}", 1, a, now);
  }

  lemma {:induction false} FirstVerified(hash: string -> Digest, now: string)
    ensures Verify(Checked(hash), [Canonical(FirstReceipt(hash, "a", now))]) == Accepted(1)
  {
    hide FirstReceipt, Canonical, Verify, VerifierLines, Find, Norm, Plain, UniversalNewlines, ViewsAgree;
    FirstReceiptIs(hash, "a", now);
  }

  lemma {:induction false} FormFeed(line: string)
    requires line != "" && NoBoundary(line) && !Blank(line)
    requires forall i :: 0 <= i < |line| ==> line[i] != '\r' && line[i] != '\n'
    ensures VerifierLines(line + "\U{C}") == [line] && !Whole(line + "\U{C}")
  {
    hide NonBlank, IsStripped;
    var file := line + "\U{C}";
    assert file[|line|] == '\U{C}' && forall i :: 0 <= i < |line| ==> file[i] == line[i];
    assert IsBoundary('\U{C}');
    UniversalKeeps(file);
    LineEndIs(file, false, |line|);
    LineEndIs(file, true, |file|);
    assert file[..|line|] == line && After(|line|, file) == "" && After(|file|, file) == "";
    assert SplitLines("") == [] && FileLines("") == [];
    CutFirst(file);
    assert SplitLines(file) == [line] && FileLines(file) == [file];
    KeptAlone(line);
    NotBlankPrefix(line, "\U{C}");
    KeptAlone(file);
    hide SplitLines, FileLines, UniversalNewlines;
    assert Chop(file) == file && IsBoundary(file[|line|]);
  }

  lemma {:induction false} NotBlankPrefix(line: string, more: string)
    requires !Blank(line)
    ensures !Blank(line + more)
  {
    hide IsStripped;
    var i :| 0 <= i < |line| && !IsStripped(line[i]);
    assert (line + more)[i] == line[i];
  }
}
