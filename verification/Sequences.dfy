/** Facts about concatenation the solver does not find by itself. */
module Sequences {
  lemma {:induction false} Associative<T>(a: seq<T>, b: seq<T>, c: seq<T>)
    ensures a + (b + c) == (a + b) + c
  {
  }

  function Concat<T>(parts: seq<seq<T>>): seq<T> {
    if parts == [] then [] else parts[0] + Concat(parts[1..])
  }

  /** The parts of `s`, cut after each mark and nowhere else. */
  ghost predicate CutAfter<T>(s: seq<T>, mark: T, parts: seq<seq<T>>) {
    Concat(parts) == s && forall i :: 0 <= i < |parts| ==> IsPart(mark, parts[i], i == |parts| - 1)
  }

  /** A mark stands at the end, if anywhere; only the last part may go without. */
  ghost predicate IsPart<T>(mark: T, part: seq<T>, last: bool) {
    && part != [] && (forall k :: 0 <= k < |part| - 1 ==> part[k] != mark) && (!last ==> part[|part| - 1] == mark)
  }

  lemma {:induction false} CutAfterRest<T>(s: seq<T>, mark: T, parts: seq<seq<T>>)
    requires CutAfter(s, mark, parts)
    ensures parts == [] <==> s == []
    ensures parts != [] ==> IsPart(mark, parts[0], |parts| == 1) && s == parts[0] + Concat(parts[1..])
    ensures parts != [] ==> CutAfter(Concat(parts[1..]), mark, parts[1..]) && s[|parts[0]|..] == Concat(parts[1..])
  {
    assert parts != [] ==> IsPart(mark, parts[0], |parts| == 1);
    assert forall i :: 0 <= i < |parts| - 1 ==> parts[1..][i] == parts[i + 1];
  }

  /** There is one way to cut. */
  lemma {:induction false} CutAfterOnce<T>(s: seq<T>, mark: T, a: seq<seq<T>>, b: seq<seq<T>>)
    requires CutAfter(s, mark, a) && CutAfter(s, mark, b)
    ensures a == b
  {
    CutAfterRest(s, mark, a);
    CutAfterRest(s, mark, b);
    hide CutAfter;
    if a != [] {
      FirstPart(s, mark, a[0], Concat(a[1..]), |a| == 1, b[0], Concat(b[1..]), |b| == 1);
      CutAfterOnce(s[|a[0]|..], mark, a[1..], b[1..]);
      assert a == [a[0]] + a[1..] && b == [b[0]] + b[1..];
    }
  }

  lemma {:induction false} FirstPart<T>(s: seq<T>, mark: T, x: seq<T>, xs: seq<T>, lastX: bool, y: seq<T>, ys: seq<T>,
                                        lastY: bool)
    requires s == x + xs == y + ys && IsPart(mark, x, lastX) && IsPart(mark, y, lastY)
    requires lastX ==> xs == []
    requires lastY ==> ys == []
    ensures x == y
  {
    NotLonger(s, mark, x, xs, lastX, y, ys, lastY);
    NotLonger(s, mark, y, ys, lastY, x, xs, lastX);
    assert s[..|x|] == x && s[..|y|] == y;
  }

  lemma {:induction false} NotLonger<T>(s: seq<T>, mark: T, x: seq<T>, xs: seq<T>, lastX: bool, y: seq<T>, ys: seq<T>,
                                        lastY: bool)
    requires s == x + xs == y + ys && IsPart(mark, x, lastX) && IsPart(mark, y, lastY)
    requires lastX ==> xs == []
    ensures |y| <= |x|
  {
    assert s[|x| - 1] == x[|x| - 1];
    assert forall k :: 0 <= k < |y| - 1 ==> s[k] == y[k] != mark;
  }

  /** The part before the rest. */
  lemma {:induction false} CutAfterMore<T>(s: seq<T>, mark: T, part: seq<T>, rest: seq<T>, parts: seq<seq<T>>)
    requires s == part + rest && IsPart(mark, part, rest == []) && CutAfter(rest, mark, parts)
    ensures CutAfter(s, mark, [part] + parts)
  {
    var all := [part] + parts;
    CutAfterRest(rest, mark, parts);
    hide IsPart;
    assert all[1..] == parts;
    forall i | 0 <= i < |all| ensures IsPart(mark, all[i], i == |all| - 1) {
      assert i > 0 ==> all[i] == parts[i - 1];
    }
  }
}
