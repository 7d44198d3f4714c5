/** The cap walker `plot_caps` (theconv.c). When a stroke's start and end
    caps differ, or either is a triangle, the stroke is thickened by the OS
    into an outline path and the caps are drawn separately: the walker goes
    over the thickened path's elements keeping a `start` flag (a start cap
    is due) and a window of the last two points, kept by `record`. The shape
    of each cap is geometry printed with `%g` and is carried as a
    `CapShape` event. */
module Caps {

  import opened Words
  import opened Events

  /** The window after `record(p, n, nw)`: the first `n` slots move down one
      place and `nw` goes into slot `n - 1` (slot 0 when `n` is below 1). */
  function Shifted(s: seq<Option<int>>, n: int, nw: Option<int>): (r: seq<Option<int>>)
    requires 1 <= |s| && n <= |s|
    ensures |r| == |s|
    ensures n <= 1 ==> r[0] == nw
    ensures n >= 1 ==> r[n - 1] == nw && forall i :: 0 <= i < n - 1 ==> r[i] == s[i + 1]
    ensures forall i :: (if n < 1 then 1 else n) <= i < |s| ==> r[i] == s[i]
  {
    var m := if n < 1 then 1 else n;
    s[1..m] + [nw] + s[m..]
  }

  /** `record`: shifts the window in place. */
  method Record(p: array<Option<int>>, n: int, nw: Option<int>)
    requires 1 <= p.Length && n <= p.Length
    modifies p
    ensures p[..] == Shifted(old(p[..]), n, nw)
  {
    var i := 0;
    while i < n - 1
      invariant 0 <= i <= (if n < 1 then 0 else n - 1)
      invariant forall k :: 0 <= k < i ==> p[k] == old(p[k + 1])
      invariant forall k :: i <= k < p.Length ==> p[k] == old(p[k])
    {
      p[i] := p[i + 1];
      i := i + 1;
    }
    p[i] := nw;
    assert i == (if n < 1 then 1 else n) - 1;
  }

  /** The point a window slot refers to, if any. */
  function PointAt(w: seq<int>, p: Option<int>): Option<Point>
  {
    match p
    case None => None
    case Some(i) => Some(Point(At(w, i), At(w, i + 1)))
  }

  /** A cap of kind `kind` drawn from `from` towards `to`; caps of kind 0
      (butt) have no case in the source and draw nothing. */
  function CapEvent(ind: int, kind: int, from: Option<Point>, to: Option<Point>): (r: seq<Event>)
    ensures r != [] <==> kind in {1, 2, 3}
    ensures r != [] ==> r == [CapShape(ind, kind, from, to)]
  {
    if kind in {1, 2, 3} then [CapShape(ind, kind, from, to)] else []
  }

  /** `plot_caps` over the elements in `[d, e)` of the thickened path `w`,
      appending to `acc` what it emits at indentation `ind`. `start` says a
      start cap is due; `(p0, p1)` is the window of the last two points. */
  function CapsLog(acc: seq<Event>, ind: int, w: seq<int>, d: int, e: int,
                   scap: int, ecap: int, start: bool, p0: Option<int>, p1: Option<int>): seq<Event>
    decreases e - d
  {
    if d >= e then acc
    else
      var code := At(w, d);
      if code in {0, 2, 3, 7} then
        var acc1 := if start then acc else acc + CapEvent(ind, ecap, PointAt(w, p0), PointAt(w, p1));
        if code == 0 then acc1
        else CapsLog(acc1, ind, w, d + 3, e, scap, ecap, true, p1, Some(d + 1))
      else if code == 4 then CapsLog(acc, ind, w, d + 1, e, scap, ecap, true, p0, p1)
      else if code == 5 then CapsLog(acc, ind, w, d + 1, e, scap, ecap, start, p0, p1)
      else if code == 6 then
        CapsLog(acc + [Diag("Bezier in thickened path?\n")], ind, w, d + 7, e, scap, ecap, start, p0, p1)
      else if code == 8 then
        var acc1 := if start
          then acc + CapEvent(ind, scap, Some(Point(At(w, d + 1), At(w, d + 2))), PointAt(w, p1))
          else acc;
        CapsLog(acc1, ind, w, d + 3, e, scap, ecap, false, p1, Some(d + 1))
      else acc + [Diag("Cap path aborted: element is " + IntToString(code) + "\n")]
  }

  /** The words of one stroked subpath through `pts`: a move to the first
      point, a line to each of the others, an optional close (code 4), and
      the end marker. */
  function StrokeWords(pts: seq<Point>, closed: bool): (w: seq<int>)
    ensures |w| == 3 * |pts| + (if closed then 2 else 1)
  {
    seq(3 * |pts| + (if closed then 2 else 1), i requires 0 <= i =>
      if i < 3 * |pts| then
        if i % 3 == 0 then (if i == 0 then 2 else 8)
        else if i % 3 == 1 then pts[i / 3].x
        else pts[i / 3].y
      else if closed && i == 3 * |pts| then 4
      else 0)
  }

  /** From the `k`-th point of a subpath on, with a line already drawn, only
      the end cap is left to emit: it goes from the last but one point to
      the last, unless a close (code 4) cancels it. */
  lemma {:induction false} LinesThenEnd(acc: seq<Event>, ind: int, pts: seq<Point>, closed: bool,
                                        scap: int, ecap: int, k: nat)
    requires 2 <= k <= |pts|
    ensures
      var w := StrokeWords(pts, closed);
      CapsLog(acc, ind, w, 3 * k, |w|, scap, ecap, false, Some(3 * k - 5), Some(3 * k - 2))
      == acc + (if closed then [] else CapEvent(ind, ecap, Some(pts[|pts| - 2]), Some(pts[|pts| - 1])))
    decreases |pts| - k
  {
    var w := StrokeWords(pts, closed);
    assert PointAt(w, Some(3 * k - 5)) == Some(pts[k - 2]) by {
      assert (3 * k - 5) / 3 == k - 2 && (3 * k - 5) % 3 == 1;
    }
    assert PointAt(w, Some(3 * k - 2)) == Some(pts[k - 1]) by {
      assert (3 * k - 2) / 3 == k - 1 && (3 * k - 2) % 3 == 1;
    }
    if k < |pts| {
      assert At(w, 3 * k) == 8;
      LinesThenEnd(acc, ind, pts, closed, scap, ecap, k + 1);
    } else if closed {
      assert At(w, 3 * k) == 4;
      assert At(w, 3 * k + 1) == 0;
    } else {
      assert At(w, 3 * k) == 0;
    }
  }

  /** A stroked open subpath gets exactly two caps: a start cap from its
      second point back to its first, then an end cap along its last line.
      A closed one (code 4 before the end) gets only the start cap. */
  lemma SubpathCaps(acc: seq<Event>, ind: int, pts: seq<Point>, closed: bool, scap: int, ecap: int)
    requires |pts| >= 2
    ensures
      var w := StrokeWords(pts, closed);
      CapsLog(acc, ind, w, 0, |w|, scap, ecap, true, None, None)
      == acc + CapEvent(ind, scap, Some(pts[1]), Some(pts[0]))
         + (if closed then [] else CapEvent(ind, ecap, Some(pts[|pts| - 2]), Some(pts[|pts| - 1])))
  {
    var w := StrokeWords(pts, closed);
    assert At(w, 0) == 2;
    assert At(w, 3) == 8 && At(w, 4) == pts[1].x && At(w, 5) == pts[1].y;
    assert PointAt(w, Some(1)) == Some(pts[0]);
    var acc1 := acc + CapEvent(ind, scap, Some(pts[1]), Some(pts[0]));
    assert CapsLog(acc, ind, w, 0, |w|, scap, ecap, true, None, None)
        == CapsLog(acc1, ind, w, 6, |w|, scap, ecap, false, Some(1), Some(4));
    LinesThenEnd(acc1, ind, pts, closed, scap, ecap, 2);
  }

  lemma CapEventDepth(acc: seq<Event>, ind: int, kind: int, from: Option<Point>, to: Option<Point>)
    ensures Depth(acc + CapEvent(ind, kind, from, to)) == Depth(acc)
  {
    if kind in {1, 2, 3} {
      DepthAdd(acc, CapShape(ind, kind, from, to));
    } else {
      assert acc + CapEvent(ind, kind, from, to) == acc;
    }
  }

  /** The cap walk opens and closes no `<g>` element. */
  lemma {:induction false} CapsLogDepth(acc: seq<Event>, ind: int, w: seq<int>, d: int, e: int,
                                        scap: int, ecap: int, start: bool, p0: Option<int>, p1: Option<int>)
    ensures Depth(CapsLog(acc, ind, w, d, e, scap, ecap, start, p0, p1)) == Depth(acc)
    decreases e - d
  {
    if d < e {
      var code := At(w, d);
      if code in {0, 2, 3, 7} {
        CapEventDepth(acc, ind, ecap, PointAt(w, p0), PointAt(w, p1));
        var acc1 := if start then acc else acc + CapEvent(ind, ecap, PointAt(w, p0), PointAt(w, p1));
        if code != 0 {
          CapsLogDepth(acc1, ind, w, d + 3, e, scap, ecap, true, p1, Some(d + 1));
        }
      } else if code == 4 {
        CapsLogDepth(acc, ind, w, d + 1, e, scap, ecap, true, p0, p1);
      } else if code == 5 {
        CapsLogDepth(acc, ind, w, d + 1, e, scap, ecap, start, p0, p1);
      } else if code == 6 {
        DepthAdd(acc, Diag("Bezier in thickened path?\n"));
        CapsLogDepth(acc + [Diag("Bezier in thickened path?\n")], ind, w, d + 7, e, scap, ecap, start, p0, p1);
      } else if code == 8 {
        var from := Some(Point(At(w, d + 1), At(w, d + 2)));
        CapEventDepth(acc, ind, scap, from, PointAt(w, p1));
        var acc1 := if start then acc + CapEvent(ind, scap, from, PointAt(w, p1)) else acc;
        CapsLogDepth(acc1, ind, w, d + 3, e, scap, ecap, false, p1, Some(d + 1));
      } else {
        DepthAdd(acc, Diag("Cap path aborted: element is " + IntToString(code) + "\n"));
      }
    }
  }
}
