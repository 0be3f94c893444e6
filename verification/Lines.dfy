/** The two ways the ledger tools cut a file into lines.

  `_last_entry` iterates over the file (lines end at "\n"); `verify_ledger` calls
  `str.splitlines()`, which knows more line ends. Both read with universal newlines
  and drop lines that `str.strip()` empties. */
module Lines {
  import opened Sequences

  /** Text-mode reading: "\r\n" and "\r" become "\n". */
  function UniversalNewlines(s: string): string {
    if s == "" then ""
    else if s[0] != '\r' then [s[0]] + UniversalNewlines(s[1..])
    else if |s| > 1 && s[1] == '\n' then UniversalNewlines(s[1..])
    else "\n" + UniversalNewlines(s[1..])
  }

  /** The line ends of `str.splitlines()`. */
  predicate IsBoundary(c: char) {
    || '\n' <= c <= '\r'
    || '\U{1C}' <= c <= '\U{1E}'
    || c == '\U{85}' || c == '\U{2028}' || c == '\U{2029}'
  }

  /** The characters `str.strip()` removes. */
  predicate IsStripped(c: char) {
    || '\t' <= c <= '\r'
    || '\U{1C}' <= c <= ' '
    || c == '\U{85}' || c == '\U{A0}' || c == '\U{1680}'
    || '\U{2000}' <= c <= '\U{200A}'
    || c == '\U{2028}' || c == '\U{2029}' || c == '\U{202F}' || c == '\U{205F}' || c == '\U{3000}'
  }

  ghost predicate Blank(line: string) {
    forall i :: 0 <= i < |line| ==> IsStripped(line[i])
  }

  ghost predicate NoBoundary(line: string) {
    forall i :: 0 <= i < |line| ==> !IsBoundary(line[i])
  }

  /** Index of the first line end, or the length. `onlyNewline` selects file iteration. */
  function LineEnd(s: string, onlyNewline: bool): (n: nat)
    ensures n <= |s|
    ensures n < |s| ==> if onlyNewline then s[n] == '\n' else IsBoundary(s[n])
    ensures forall i :: 0 <= i < n ==> if onlyNewline then s[i] != '\n' else !IsBoundary(s[i])
  {
    if s == "" || (if onlyNewline then s[0] == '\n' else IsBoundary(s[0])) then 0
    else
      var n := LineEnd(s[1..], onlyNewline);
      assert forall i :: 0 < i <= |s| - 1 ==> s[i] == s[1..][i - 1];
      1 + n
  }

  function After(n: nat, s: string): string
    requires n <= |s|
  {
    if n < |s| then s[n + 1..] else ""
  }

  /** `str.splitlines()`, after universal newlines. */
  function SplitLines(s: string): seq<string>
    decreases |s|
  {
    if s == "" then []
    else
      var n := LineEnd(s, false);
      [s[..n]] + SplitLines(After(n, s))
  }

  /** Iterating over the file: each line keeps its "\n". */
  function FileLines(s: string): seq<string>
    decreases |s|
  {
    if s == "" then []
    else
      var n := LineEnd(s, true);
      [if n < |s| then s[..n + 1] else s] + FileLines(After(n, s))
  }

  function IsBlank(line: string): (b: bool)
    ensures b <==> Blank(line)
  {
    forall i :: 0 <= i < |line| ==> IsStripped(line[i])
  }

  function NonBlank(lines: seq<string>): (r: seq<string>)
    ensures forall i :: 0 <= i < |r| ==> r[i] in lines && !Blank(r[i])
  {
    if lines == [] then []
    else if IsBlank(lines[0]) then NonBlank(lines[1..])
    else [lines[0]] + NonBlank(lines[1..])
  }

  /** What `verify_ledger` reads. */
  function VerifierLines(file: string): seq<string> {
    NonBlank(SplitLines(UniversalNewlines(file)))
  }

  /** What `_last_entry` reads. */
  function EmitterLines(file: string): seq<string> {
    NonBlank(FileLines(UniversalNewlines(file)))
  }

  /** A file line without its line end. */
  function Chop(line: string): string {
    if line != "" && line[|line| - 1] == '\n' then line[..|line| - 1] else line
  }

  function ChopAll(lines: seq<string>): seq<string> {
    seq(|lines|, i requires 0 <= i < |lines| => Chop(lines[i]))
  }

  ghost predicate ViewsAgree(file: string) {
    VerifierLines(file) == ChopAll(EmitterLines(file))
  }

  // ---------- cutting after a line end ----------

  /** The text is empty or stops at a line end. */
  predicate Closed(s: string, onlyNewline: bool) {
    s == "" || (if onlyNewline then s[|s| - 1] == '\n' else IsBoundary(s[|s| - 1]))
  }

  lemma {:induction false} LineEndIs(s: string, onlyNewline: bool, n: nat)
    requires n <= |s|
    requires n < |s| ==> if onlyNewline then s[n] == '\n' else IsBoundary(s[n])
    requires forall i :: 0 <= i < n ==> if onlyNewline then s[i] != '\n' else !IsBoundary(s[i])
    ensures LineEnd(s, onlyNewline) == n
  {
  }

  lemma {:induction false} LineEndAppend(s: string, t: string, onlyNewline: bool)
    requires s != "" && Closed(s, onlyNewline)
    ensures LineEnd(s, onlyNewline) < |s|
    ensures LineEnd(s + t, onlyNewline) == LineEnd(s, onlyNewline)
    ensures After(LineEnd(s, onlyNewline), s + t) == After(LineEnd(s, onlyNewline), s) + t
    ensures Closed(After(LineEnd(s, onlyNewline), s), onlyNewline)
  {
    var n := LineEnd(s, onlyNewline);
    assert n < |s|;
    LineEndIs(s + t, onlyNewline, n);
    assert (s + t)[n + 1..] == s[n + 1..] + t;
  }

  lemma {:induction false} CutFirst(s: string)
    requires s != ""
    ensures var n := LineEnd(s, false); SplitLines(s) == [s[..n]] + SplitLines(After(n, s))
  {
  }

  lemma {:induction false} CutFirstAtNewline(s: string, n: nat)
    requires n == LineEnd(s, true) < |s|
    ensures FileLines(s) == [s[..n + 1]] + FileLines(After(n, s))
  {
  }

  lemma {:induction false} SplitLinesAppend(s: string, t: string)
    requires Closed(s, false)
    ensures SplitLines(s + t) == SplitLines(s) + SplitLines(t)
    decreases |s|
  {
    if s == "" {
      assert s + t == t;
    } else {
      var n := LineEnd(s, false);
      LineEndAppend(s, t, false);
      assert (s + t)[..n] == s[..n];
      calc {
        SplitLines(s + t);
      == { CutFirst(s + t); }
        [s[..n]] + SplitLines(After(n, s) + t);
      == { SplitLinesAppend(After(n, s), t); }
        [s[..n]] + (SplitLines(After(n, s)) + SplitLines(t));
      == { Associative([s[..n]], SplitLines(After(n, s)), SplitLines(t)); }
        ([s[..n]] + SplitLines(After(n, s))) + SplitLines(t);
      == { CutFirst(s); }
        SplitLines(s) + SplitLines(t);
      }
    }
  }

  lemma {:induction false} FileLinesAppend(s: string, t: string)
    requires Closed(s, true)
    ensures FileLines(s + t) == FileLines(s) + FileLines(t)
    decreases |s|
  {
    if s == "" {
      assert s + t == t;
    } else {
      var n := LineEnd(s, true);
      LineEndAppend(s, t, true);
      assert (s + t)[..n + 1] == s[..n + 1];
      calc {
        FileLines(s + t);
      == { CutFirstAtNewline(s + t, n); }
        [s[..n + 1]] + FileLines(After(n, s) + t);
      == { FileLinesAppend(After(n, s), t); }
        [s[..n + 1]] + (FileLines(After(n, s)) + FileLines(t));
      == { Associative([s[..n + 1]], FileLines(After(n, s)), FileLines(t)); }
        ([s[..n + 1]] + FileLines(After(n, s))) + FileLines(t);
      == { CutFirstAtNewline(s, n); }
        FileLines(s) + FileLines(t);
      }
    }
  }

  lemma {:induction false} OneLine(line: string, end: string)
    requires NoBoundary(line) && (end == "" || end == "\n") && line + end != ""
    ensures SplitLines(line + end) == [line]
    ensures FileLines(line + end) == [line + end]
  {
    var s := line + end;
    assert forall i :: 0 <= i < |line| ==> s[i] == line[i] && !IsBoundary(line[i]);
    LineEndIs(s, false, |line|);
    LineEndIs(s, true, |line|);
    assert s[..|line|] == line;
    assert SplitLines("") == [] && FileLines("") == [];
    assert After(|line|, s) == "";
    assert |line| < |s| ==> s[..|line| + 1] == s;
    assert SplitLines(s) == [line] + SplitLines("");
    assert FileLines(s) == [s] + FileLines("");
  }

  lemma {:induction false} NonBlankAppend(a: seq<string>, b: seq<string>)
    ensures NonBlank(a + b) == NonBlank(a) + NonBlank(b)
  {
    if a == [] {
      assert a + b == b;
    } else {
      assert (a + b)[1..] == a[1..] + b;
      NonBlankAppend(a[1..], b);
    }
  }

  lemma {:induction false} AllBlank(lines: seq<string>)
    requires forall i :: 0 <= i < |lines| ==> Blank(lines[i])
    ensures NonBlank(lines) == []
  {
    if lines != [] { AllBlank(lines[1..]); }
  }

  // ---------- when the two views agree ----------

  lemma {:induction false} PiecesOf(s: string)
    ensures forall i :: 0 <= i < |SplitLines(s)| ==> NoBoundary(SplitLines(s)[i])
    ensures Blank(s) ==> forall i :: 0 <= i < |SplitLines(s)| ==> Blank(SplitLines(s)[i])
    decreases |s|
  {
    if s != "" { PiecesOf(After(LineEnd(s, false), s)); }
  }

  /** One file line, with or without its "\n". */
  lemma {:induction false} OneLineViews(line: string)
    requires line != "" && forall i :: 0 <= i < |line| - 1 ==> line[i] != '\n'
    requires Blank(line) || NoBoundary(Chop(line))
    ensures NonBlank(SplitLines(line)) == ChopAll(NonBlank([line]))
  {
    var c := Chop(line);
    var end := line[|c|..];
    assert line == c + end;
    assert NonBlank([line]) == if IsBlank(line) then [] else [line];
    if Blank(line) {
      PiecesOf(line);
      AllBlank(SplitLines(line));
    } else {
      OneLine(c, end);
      assert !Blank(c);
      assert NonBlank([c]) == [c];
      assert ChopAll([line]) == [c];
    }
  }

  lemma {:induction false} FirstFileLine(u: string) returns (line: string, rest: string)
    requires u != ""
    ensures u == line + rest && line != "" && |rest| < |u|
    ensures FileLines(u) == [line] + FileLines(rest)
    ensures forall i :: 0 <= i < |line| - 1 ==> line[i] != '\n'
    ensures rest == "" || Closed(line, true)
  {
    hide FileLines;
    var n := LineEnd(u, true);
    line := if n < |u| then u[..n + 1] else u;
    rest := After(n, u);
    CutFileFirst(u);
    hide LineEnd;
  }

  lemma {:induction false} CutFileFirst(u: string)
    requires u != ""
    ensures var n := LineEnd(u, true);
            FileLines(u) == [if n < |u| then u[..n + 1] else u] + FileLines(After(n, u))
  {
  }

  ghost predicate Regular(lines: seq<string>) {
    forall i :: 0 <= i < |lines| ==> Blank(lines[i]) || NoBoundary(Chop(lines[i]))
  }

  lemma {:induction false} ChopAllAppend(a: seq<string>, b: seq<string>)
    ensures ChopAll(a + b) == ChopAll(a) + ChopAll(b)
  {
  }

  lemma {:induction false} CutFileLine(u: string, line: string, rest: string)
    requires u == line + rest && (rest == "" || Closed(line, true))
    ensures NonBlank(SplitLines(u)) == NonBlank(SplitLines(line)) + NonBlank(SplitLines(rest))
  {
    if rest == "" {
      assert u == line;
    } else {
      SplitLinesAppend(line, rest);
      NonBlankAppend(SplitLines(line), SplitLines(rest));
    }
  }

  lemma {:induction false} RegularViewsAgree(u: string)
    requires Regular(FileLines(u))
    ensures NonBlank(SplitLines(u)) == ChopAll(NonBlank(FileLines(u)))
    decreases |u|
  {
    if u != "" {
      hide SplitLines, FileLines, NonBlank, IsBoundary, IsStripped, Chop;
      var line, rest := FirstFileLine(u);
      RegularParts(u, line, rest);
      RegularViewsAgree(rest);
      OneLineViews(line);
      CutFileLine(u, line, rest);
      NonBlankAppend([line], FileLines(rest));
      ChopAllAppend(NonBlank([line]), NonBlank(FileLines(rest)));
    }
  }

  lemma {:induction false} RegularParts(u: string, line: string, rest: string)
    requires Regular(FileLines(u)) && FileLines(u) == [line] + FileLines(rest)
    ensures Regular(FileLines(rest)) && (Blank(line) || NoBoundary(Chop(line)))
  {
    hide FileLines, Chop, IsBoundary, IsStripped;
    assert FileLines(u)[0] == line && FileLines(u)[1..] == FileLines(rest);
  }

  lemma {:induction false} NonBlankKeeps(lines: seq<string>, i: nat)
    requires i < |lines| && !Blank(lines[i])
    ensures lines[i] in NonBlank(lines)
  {
    if i > 0 {
      assert lines[i] == lines[1..][i - 1];
      NonBlankKeeps(lines[1..], i - 1);
    }
  }

  lemma {:induction false} AgreeingLine(file: string, i: nat)
    requires ViewsAgree(file) && i < |FileLines(UniversalNewlines(file))|
    ensures var line := FileLines(UniversalNewlines(file))[i]; Blank(line) || NoBoundary(Chop(line))
  {
    var lines := FileLines(UniversalNewlines(file));
    if !Blank(lines[i]) {
      NonBlankKeeps(lines, i);
      var j :| 0 <= j < |EmitterLines(file)| && EmitterLines(file)[j] == lines[i];
      assert VerifierLines(file)[j] == ChopAll(EmitterLines(file))[j] == Chop(lines[i]);
      PiecesOf(UniversalNewlines(file));
    }
  }

  /** The two tools see the same entries exactly when no entry has a line end of
    `str.splitlines()` inside it. */
  lemma {:induction false} ViewsAgreeIff(file: string)
    ensures ViewsAgree(file) <==> Regular(FileLines(UniversalNewlines(file)))
  {
    var u := UniversalNewlines(file);
    if ViewsAgree(file) {
      forall i | 0 <= i < |FileLines(u)| ensures Blank(FileLines(u)[i]) || NoBoundary(Chop(FileLines(u)[i])) {
        AgreeingLine(file, i);
      }
    }
    if Regular(FileLines(u)) {
      RegularViewsAgree(u);
    }
  }

  // ---------- appending one line ----------

  lemma {:induction false} UniversalAppend(s: string, t: string)
    requires t == "" || t[0] != '\n'
    ensures UniversalNewlines(s + t) == UniversalNewlines(s) + UniversalNewlines(t)
  {
    if s == "" {
      assert s + t == t;
    } else {
      assert (s + t)[1..] == s[1..] + t;
      UniversalAppend(s[1..], t);
      UniversalStep(s);
      UniversalStep(s + t);
      var head := if s[0] != '\r' then [s[0]] else if |s| > 1 && s[1] == '\n' then "" else "\n";
      assert |s| == 1 && t != "" ==> (s + t)[1] == t[0];
      assert |s| > 1 ==> (s + t)[1] == s[1];
      hide UniversalNewlines;
      Associative(head, UniversalNewlines(s[1..]), UniversalNewlines(t));
    }
  }

  lemma {:induction false} UniversalStep(s: string)
    requires s != ""
    ensures UniversalNewlines(s) ==
            (if s[0] != '\r' then [s[0]] else if |s| > 1 && s[1] == '\n' then "" else "\n") + UniversalNewlines(s[1..])
  {
  }

  lemma {:induction false} UniversalKeeps(t: string)
    requires forall i :: 0 <= i < |t| ==> t[i] != '\r'
    ensures UniversalNewlines(t) == t
  {
    if t != "" { UniversalKeeps(t[1..]); }
  }

  /** What follows the last line end of `str.splitlines()`. */
  function Tail(s: string): (t: string)
    ensures NoBoundary(t) && |t| <= |s| && t == s[|s| - |t|..] && Closed(s[..|s| - |t|], false)
  {
    if s == "" || IsBoundary(s[|s| - 1]) then ""
    else Tail(s[..|s| - 1]) + [s[|s| - 1]]
  }

  /** Everything up to and with the last line end of `str.splitlines()`. */
  function Head(s: string): string { s[..|s| - |Tail(s)|] }

  lemma {:induction false} SplitHeadTail(u: string)
    ensures NonBlank(SplitLines(u)) == NonBlank(SplitLines(Head(u))) + if IsBlank(Tail(u)) then [] else [Tail(u)]
  {
    var head, tail := Head(u), Tail(u);
    assert u == head + tail;
    SplitLinesAppend(head, tail);
    NonBlankAppend(SplitLines(head), SplitLines(tail));
    if tail != "" {
      OneLine(tail, "");
      assert tail + "" == tail;
      assert NonBlank([tail]) == if IsBlank(tail) then [] else [tail];
    }
  }

  lemma {:induction false} NotBlankSuffix(tail: string, line: string)
    requires !Blank(line)
    ensures !Blank(tail + line)
  {
    var i :| 0 <= i < |line| && !IsStripped(line[i]);
    assert (tail + line)[|tail| + i] == line[i];
  }

  lemma {:induction false} UniversalAppendLine(file: string, line: string)
    requires line != "" && NoBoundary(line)
    ensures UniversalNewlines(file + line + "\n") == UniversalNewlines(file) + (line + "\n")
  {
    assert file + line + "\n" == file + (line + "\n");
    assert forall i :: 0 <= i < |line| ==> !IsBoundary(line[i]) && line[i] != '\r';
    assert (line + "\n")[0] == line[0] != '\n';
    UniversalAppend(file, line + "\n");
    UniversalKeeps(line + "\n");
  }

  lemma {:induction false} JoinTail(head: string, tail: string, line: string, end: string)
    ensures (head + tail) + (line + end) == head + ((tail + line) + end)
  {
  }

  lemma {:induction false} AppendToTail(head: string, tail: string, line: string)
    requires Closed(head, false) && NoBoundary(tail) && NoBoundary(line) && !Blank(line)
    ensures NonBlank(SplitLines(head + ((tail + line) + "\n"))) == NonBlank(SplitLines(head)) + [tail + line]
  {
    hide SplitLines, NonBlank, IsBoundary, IsStripped;
    SplitLinesAppend(head, (tail + line) + "\n");
    OneLine(tail + line, "\n");
    NonBlankAppend(SplitLines(head), [tail + line]);
    NotBlankSuffix(tail, line);
    KeptAlone(tail + line);
  }

  lemma {:induction false} KeptAlone(line: string)
    requires !Blank(line)
    ensures NonBlank([line]) == [line]
  {
  }

  /** Writing a line and its "\n" after a text that may stop in the middle of a line. */
  lemma {:induction false} AppendLine(file: string, line: string)
    requires NoBoundary(line) && !Blank(line)
    ensures var u := UniversalNewlines(file);
            VerifierLines(file + line + "\n") == NonBlank(SplitLines(Head(u))) + [Tail(u) + line]
  {
    hide UniversalNewlines, SplitLines, NonBlank, IsBoundary, IsStripped;
    var u := UniversalNewlines(file);
    var head, tail := Head(u), Tail(u);
    assert head + tail == u;
    hide Head, Tail;
    UniversalAppendLine(file, line);
    JoinTail(head, tail, line, "\n");
    AppendToTail(head, tail, line);
  }

  /** The same for file iteration, after a text that stops at a "\n". */
  lemma {:induction false} AppendFileLine(file: string, line: string)
    requires NoBoundary(line) && !Blank(line)
    requires Closed(UniversalNewlines(file), true)
    ensures EmitterLines(file + line + "\n") == EmitterLines(file) + [line + "\n"]
    ensures Closed(UniversalNewlines(file + line + "\n"), true)
  {
    var u := UniversalNewlines(file);
    UniversalAppendLine(file, line);
    FileLinesAppend(u, line + "\n");
    OneLine(line, "\n");
    NonBlankAppend(FileLines(u), [line + "\n"]);
    assert !Blank(line + "\n") by {
      var i :| 0 <= i < |line| && !IsStripped(line[i]);
      assert (line + "\n")[i] == line[i];
    }
    assert NonBlank([line + "\n"]) == [line + "\n"];
  }

  // ---------- the last non-blank file line ----------

  lemma {:induction false} BlankFile(u: string)
    requires NonBlank(FileLines(u)) == []
    ensures NonBlank(SplitLines(u)) == []
    decreases |u|
  {
    if u != "" {
      var line, rest := FirstFileLine(u);
      NonBlankAppend([line], FileLines(rest));
      BlankFile(rest);
      CutFileLine(u, line, rest);
      assert Blank(line);
      PiecesOf(line);
      AllBlank(SplitLines(line));
    }
  }

  lemma {:induction false} NoneInParts(c: char, s: string, t: string)
    ensures c !in s + t ==> c !in s && c !in t
  {
  }

  lemma {:induction false} SomeText(u: string)
    requires NonBlank(FileLines(u)) != []
    ensures u != ""
  {
  }

  /** `verify_ledger` cuts the last non-blank file line on its own. */
  lemma {:induction false} LastFileLine(u: string) returns (prior: seq<string>, last: string)
    requires NonBlank(FileLines(u)) != [] && '\r' !in u
    ensures var lines := NonBlank(FileLines(u)); last == lines[|lines| - 1]
    ensures NonBlank(SplitLines(u)) == prior + NonBlank(SplitLines(last))
    ensures last != "" && (forall i :: 0 <= i < |last| - 1 ==> last[i] != '\n')
    ensures '\r' !in last
    decreases |u|
  {
    hide *;
    SomeText(u);
    var line, rest := FirstFileLine(u);
    NoneInParts('\r', line, rest);
    NonBlankAppend([line], FileLines(rest));
    CutFileLine(u, line, rest);
    if NonBlank(FileLines(rest)) == [] {
      prior, last := [], line;
      BlankFile(rest);
      OnlyKept(line);
    } else {
      var before;
      before, last := LastFileLine(rest);
      prior := NonBlank(SplitLines(line)) + before;
      Associative(NonBlank(SplitLines(line)), before, NonBlank(SplitLines(last)));
    }
  }

  lemma {:induction false} OnlyKept(line: string)
    requires NonBlank([line]) != []
    ensures NonBlank([line]) == [line]
  {
  }

  lemma {:induction false} NoCarriageReturn(s: string)
    ensures '\r' !in UniversalNewlines(s)
  {
    if s != "" { NoCarriageReturn(s[1..]); }
  }

  /** A file line with a line end of `str.splitlines()` inside: `p` is its first piece, `t` the rest. */
  lemma {:induction false} BrokenLine(line: string) returns (p: string, t: string)
    requires !NoBoundary(Chop(line)) && (forall i :: 0 <= i < |line| - 1 ==> line[i] != '\n')
    requires '\r' !in line
    ensures line == p + t && t != "" && IsBoundary(t[0]) && t[0] != '\n' && t[0] != '\r' && NoBoundary(p)
    ensures !Blank(p) ==> var lines := NonBlank(SplitLines(line)); lines != [] && lines[0] == p
  {
    hide SplitLines, NonBlank, IsStripped;
    var n := LineEnd(line, false);
    var i :| 0 <= i < |Chop(line)| && IsBoundary(Chop(line)[i]);
    assert line[i] == Chop(line)[i];
    p, t := line[..n], line[n..];
    assert t[0] == line[n];
    CutFirst(line);
    FirstKept(p, SplitLines(After(n, line)));
  }

  lemma {:induction false} FirstKept(p: string, rest: seq<string>)
    ensures !Blank(p) ==> NonBlank([p] + rest) == [p] + NonBlank(rest)
  {
    assert ([p] + rest)[1..] == rest;
  }
}
