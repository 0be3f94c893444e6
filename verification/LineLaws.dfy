/** What the line readers of `Lines` and `Ndjson` do to a text, without their loops. */
module LineLaws {
  import opened Sequences
  import opened Json
  import opened Utf8
  import opened Lines
  import Ndjson

  // ---------- characters ----------

  const BOUNDARIES := "\n\U{B}\U{C}\r\U{1C}\U{1D}\U{1E}\U{85}\U{2028}\U{2029}"

  const WHITE_SPACE := "\t\n\U{B}\U{C}\r\U{1C}\U{1D}\U{1E}\U{1F} \U{85}\U{A0}\U{1680}" +
    "\U{2000}\U{2001}\U{2002}\U{2003}\U{2004}\U{2005}\U{2006}\U{2007}\U{2008}\U{2009}\U{200A}" +
    "\U{2028}\U{2029}\U{202F}\U{205F}\U{3000}"

  /** The ten line ends of `str.splitlines()`. */
  lemma {:induction false} BoundaryIff(c: char)
    ensures IsBoundary(c) <==> c in BOUNDARIES
  {
    var b := BOUNDARIES;
    assert b[0] == '\n' && b[1] == '\U{B}' && b[2] == '\U{C}' && b[3] == '\r' && b[4] == '\U{1C}' && b[5] == '\U{1D}';
    assert b[6] == '\U{1E}' && b[7] == '\U{85}' && b[8] == '\U{2028}' && b[9] == '\U{2029}' && |b| == 10;
  }

  /** The 29 characters `str.strip()` removes and `str.split()` separates words at. */
  lemma {:induction false} StrippedIff(c: char)
    ensures IsStripped(c) <==> c in WHITE_SPACE
  {
    WhiteSpaceIs();
    var w := WHITE_SPACE;
    hide WHITE_SPACE;
    if '\U{2000}' <= c <= '\U{200A}' { assert w[13 + (c as int - 0x2000)] == c; }
  }

  lemma {:induction false} WhiteSpaceIs()
    ensures var w := WHITE_SPACE;
            && |w| == 29 && w[0] == '\t' && w[1] == '\n' && w[2] == '\U{B}' && w[3] == '\U{C}' && w[4] == '\r'
            && w[5] == '\U{1C}' && w[6] == '\U{1D}' && w[7] == '\U{1E}' && w[8] == '\U{1F}' && w[9] == ' '
            && w[10] == '\U{85}' && w[11] == '\U{A0}' && w[12] == '\U{1680}'
            && (forall i :: 13 <= i < 24 ==> w[i] as int == 0x2000 + i - 13)
            && w[24] == '\U{2028}' && w[25] == '\U{2029}' && w[26] == '\U{202F}' && w[27] == '\U{205F}'
            && w[28] == '\U{3000}'
  {
  }

  // ---------- universal newlines ----------

  /** "\r\n", and "\r" by itself, become "\n"; every other character stays. */
  lemma {:induction false} UniversalNewlinesIs(c: char, s: string)
    ensures UniversalNewlines("") == ""
    ensures UniversalNewlines("\r\n" + s) == "\n" + UniversalNewlines(s)
    ensures s == "" || s[0] != '\n' ==> UniversalNewlines("\r" + s) == "\n" + UniversalNewlines(s)
    ensures c != '\r' ==> UniversalNewlines([c] + s) == [c] + UniversalNewlines(s)
  {
    UniversalStep("\r\n" + s);
    assert ("\r\n" + s)[1..] == "\n" + s;
    UniversalStep("\n" + s);
    assert ("\n" + s)[1..] == s;
    UniversalStep("\r" + s);
    assert ("\r" + s)[1..] == s;
    UniversalStep([c] + s);
    assert ([c] + s)[1..] == s;
  }

  // ---------- lines ----------

  /** Iterating over a file cuts it after each "\n". */
  lemma {:induction false} FileLinesIff(s: string, lines: seq<string>)
    ensures FileLines(s) == lines <==> CutAfter(s, '\n', lines)
  {
    hide FileLines, CutAfter;
    FileLinesCut(s);
    if CutAfter(s, '\n', lines) { CutAfterOnce(s, '\n', lines, FileLines(s)); }
  }

  lemma {:induction false} FileLinesCut(s: string)
    ensures CutAfter(s, '\n', FileLines(s))
    decreases |s|
  {
    if s != "" {
      var n := LineEnd(s, true);
      var line := if n < |s| then s[..n + 1] else s;
      assert s == line + After(n, s);
      FileLinesCut(After(n, s));
      CutAfterMore(s, '\n', line, After(n, s), FileLines(After(n, s)));
    }
  }

  /** The pieces, each with the character it ends at; a last piece that is not empty may go without. */
  ghost predicate SplitsAt(s: string, pieces: seq<string>, ends: seq<string>) {
    if pieces == [] then s == "" && ends == []
    else
      && |ends| == |pieces| && (forall k :: 0 <= k < |pieces[0]| ==> pieces[0][k] !in BOUNDARIES)
      && (IsEnd(ends[0]) || (|pieces| == 1 && ends[0] == "" && pieces[0] != ""))
      && |pieces[0] + ends[0]| <= |s| && s == pieces[0] + ends[0] + s[|pieces[0] + ends[0]|..]
      && SplitsAt(s[|pieces[0] + ends[0]|..], pieces[1..], ends[1..])
  }

  predicate IsEnd(end: string) { |end| == 1 && end[0] in BOUNDARIES }

  /** `str.splitlines()` cuts out the line ends, and drops nothing else. */
  lemma {:induction false} SplitLinesIff(s: string, pieces: seq<string>)
    ensures SplitLines(s) == pieces <==> exists ends :: SplitsAt(s, pieces, ends)
  {
    hide SplitLines, SplitsAt;
    var ends := SplitLinesSplit(s);
    assert SplitLines(s) == pieces ==> SplitsAt(s, pieces, ends);
    if ends' :| SplitsAt(s, pieces, ends') { SplitIsSplitLines(s, pieces, ends'); }
  }

  lemma {:induction false} SplitLinesSplit(s: string) returns (ends: seq<string>)
    ensures SplitsAt(s, SplitLines(s), ends)
    decreases |s|
  {
    ends := [];
    if s != "" {
      var n := LineEnd(s, false);
      var more := SplitLinesSplit(After(n, s));
      var end := if n < |s| then [s[n]] else "";
      ends := [end] + more;
      CutFirst(s);
      FirstPiece(s, n, end, SplitLines(After(n, s)), more);
    }
  }

  lemma {:induction false} FirstPiece(s: string, n: nat, end: string, pieces: seq<string>, ends: seq<string>)
    requires s != "" && n == LineEnd(s, false) && end == (if n < |s| then [s[n]] else "")
    requires SplitsAt(After(n, s), pieces, ends)
    requires After(n, s) == "" ==> pieces == []
    ensures SplitsAt(s, [s[..n]] + pieces, [end] + ends)
  {
    hide IsBoundary;
    assert After(n, s) == "" ==> pieces == [];
    forall k | 0 <= k < n ensures s[..n][k] !in BOUNDARIES { BoundaryIff(s[k]); }
    if n < |s| { BoundaryIff(s[n]); }
    var all := [s[..n]] + pieces;
    assert all[1..] == pieces && ([end] + ends)[1..] == ends && all[0] == s[..n] && ([end] + ends)[0] == end;
    assert s[|s[..n] + end|..] == After(n, s);
    assert s == s[..n] + end + After(n, s);
  }

  lemma {:induction false} SplitIsSplitLines(s: string, pieces: seq<string>, ends: seq<string>)
    requires SplitsAt(s, pieces, ends)
    ensures SplitLines(s) == pieces
    decreases |s|
  {
    if pieces != [] {
      var rest := SplitRest(s, pieces, ends);
      SplitIsSplitLines(rest, pieces[1..], ends[1..]);
      PieceEnds(s, pieces[0], ends[0], rest);
      hide SplitsAt, LineEnd, After;
      CutFirst(s);
    }
  }

  lemma {:induction false} SplitRest(s: string, pieces: seq<string>, ends: seq<string>) returns (rest: string)
    requires SplitsAt(s, pieces, ends) && pieces != []
    ensures |ends| == |pieces| && forall k :: 0 <= k < |pieces[0]| ==> pieces[0][k] !in BOUNDARIES
    ensures s == pieces[0] + ends[0] + rest && s != "" && |rest| < |s| && SplitsAt(rest, pieces[1..], ends[1..])
    ensures IsEnd(ends[0]) || (ends[0] == "" && rest == "")
  {
    rest := s[|pieces[0] + ends[0]|..];
    assert |pieces| == 1 ==> pieces[1..] == [];
  }

  lemma {:induction false} PieceEnds(s: string, piece: string, end: string, rest: string)
    requires s == piece + end + rest && forall k :: 0 <= k < |piece| ==> piece[k] !in BOUNDARIES
    requires IsEnd(end) || (end == "" && rest == "")
    ensures LineEnd(s, false) == |piece| && s[..|piece|] == piece && After(|piece|, s) == rest
  {
    hide IsBoundary;
    forall k | 0 <= k < |piece| ensures !IsBoundary(s[k]) {
      BoundaryIff(piece[k]);
    }
    if end != "" { BoundaryIff(end[0]); }
    LineEndIs(s, false, |piece|);
  }

  /** Lines with something other than white space are kept, in order. */
  lemma {:induction false} NonBlankIs(lines: seq<string>, line: string)
    ensures NonBlank([]) == []
    ensures NonBlank(lines + [line]) ==
            NonBlank(lines) + if exists i :: 0 <= i < |line| && line[i] !in WHITE_SPACE then [line] else []
  {
    hide IsStripped;
    NonBlankAppend(lines, [line]);
    forall i | 0 <= i < |line| ensures IsStripped(line[i]) <==> line[i] in WHITE_SPACE { StrippedIff(line[i]); }
    assert [line][1..] == [];
  }

  // ---------- lines of bytes ----------

  /** Iterating over a binary file cuts it after each byte 0x0A. */
  lemma {:induction false} RawLinesIff(bytes: seq<Byte>, lines: seq<seq<Byte>>)
    ensures Ndjson.RawLines(bytes) == lines <==> CutAfter(bytes, 0x0A, lines)
  {
    hide Ndjson.RawLines, CutAfter;
    RawLinesCut(bytes);
    if CutAfter(bytes, 0x0A, lines) { CutAfterOnce(bytes, 0x0A, lines, Ndjson.RawLines(bytes)); }
  }

  lemma {:induction false} RawLinesCut(bytes: seq<Byte>)
    ensures CutAfter(bytes, 0x0A, Ndjson.RawLines(bytes))
    decreases |bytes|
  {
    if bytes != [] {
      hide CutAfter;
      var line := Ndjson.FirstLine(bytes);
      var rest := bytes[|line|..];
      RawLinesCut(rest);
      RawPart(bytes);
      CutAfterMore(bytes, 0x0A, line, rest, Ndjson.RawLines(rest));
    } else {
      assert Concat<Byte>([]) == [];
    }
  }

  lemma {:induction false} RawPart(bytes: seq<Byte>)
    requires bytes != []
    ensures var line := Ndjson.FirstLine(bytes);
            bytes == line + bytes[|line|..] && IsPart(0x0A, line, bytes[|line|..] == [])
  {
    var line := Ndjson.FirstLine(bytes);
    var n := Ndjson.ByteEnd(bytes);
    forall k | 0 <= k < |line| - 1 ensures line[k] != 0x0A { assert line[k] == bytes[..n][k]; }
  }

  /** `s.strip("\n")`: line ends at both ends go, and nothing else. */
  ghost predicate Stripped(s: string, text: string, before: string, after: string) {
    && s == before + (text + after) && (forall c :: c in before || c in after ==> c == '\n')
    && (text != "" ==> text[0] != '\n' && text[|text| - 1] != '\n')
  }

  lemma {:induction false} StripIs(s: string) returns (before: string, after: string)
    ensures Stripped(s, Ndjson.Strip(s), before, after)
    decreases |s|
  {
    if s != "" && s[0] == '\n' {
      before, after := StripIs(s[1..]);
      before := "\n" + before;
      assert s == "\n" + s[1..];
    } else {
      before := "";
      after := StripEndIs(s);
      assert Ndjson.Strip(s) != "" ==> Ndjson.Strip(s)[0] == s[0];
    }
  }

  lemma {:induction false} StripEndIs(s: string) returns (after: string)
    ensures var text := Ndjson.StripEnd(s);
            s == text + after && (forall c :: c in after ==> c == '\n') && (text != "" ==> text[|text| - 1] != '\n')
    decreases |s|
  {
    if s != "" && s[|s| - 1] == '\n' {
      after := StripEndIs(s[..|s| - 1]);
      after := after + "\n";
      assert s == s[..|s| - 1] + "\n";
    } else {
      after := "";
    }
  }

  /** What a reader makes of one line: bytes that are no UTF-8 and lines of nothing but line ends are
    passed over, and anything else is a message or noise. */
  lemma {:induction false} ReadLineIs(raw: seq<Byte>)
    ensures match Ndjson.ReadLine(raw)
            case Skipped => Decode(raw) == None ||
              exists before, after :: Stripped(Decode(raw).value, "", before, after)
            case Noise(text) =>
              && Decode(raw).Some? && text != "" && Loads(text) == None
              && exists before, after :: Stripped(Decode(raw).value, text, before, after)
            case Message(text, v) =>
              && Decode(raw).Some? && text != "" && Loads(text) == Some(v)
              && exists before, after :: Stripped(Decode(raw).value, text, before, after)
  {
    hide Decode, Loads, Stripped, Ndjson.Strip;
    if Decode(raw).Some? {
      var before, after := StripIs(Decode(raw).value);
    }
  }
}
