/** Drawfile path elements and the SVG path data `plot_path` makes of them
    (theconv.c). A path is a run of elements, each a code word followed by
    its coordinates: 0 ends the path, 2 moves, 5 closes the subpath, 6 is a
    Bezier curve and 8 a straight line. SVG's y axis points down, so every y
    is negated; every command but the move is relative to the last point. */
module PathData {

  import opened Words
  import opened Events

  /** A drawfile path element, in absolute draw-units. */
  datatype Seg =
    | MoveTo(x: int, y: int)
    | ClosePath
    | CurveTo(x1: int, y1: int, x2: int, y2: int, x3: int, y3: int)
    | LineTo(x: int, y: int)

  /** An SVG path command as emitted, in SVG coordinates (y negated). */
  datatype Cmd =
    | M(x: int, y: int)
    | Z
    | C(dx1: int, dy1: int, dx2: int, dy2: int, dx: int, dy: int)
    | V(dy: int)
    | H(dx: int)
    | L(dx: int, dy: int)

  /** The text `plot_path` formats for a command. */
  function CmdText(c: Cmd): string
  {
    match c
    case M(x, y) => "M" + IntToString(x) + " " + IntToString(y)
    case Z => "z"
    case C(a, b, p, q, x, y) =>
      "c" + IntToString(a) + " " + IntToString(b) + " " + IntToString(p) + " "
      + IntToString(q) + " " + IntToString(x) + " " + IntToString(y)
    case V(dy) => "v" + IntToString(dy)
    case H(dx) => "h" + IntToString(dx)
    case L(dx, dy) => "l" + IntToString(dx) + " " + IntToString(dy)
  }

  /** The element at word index `d`: a segment and the index of the next
      element, the end marker, or a code `plot_path` does not know. */
  datatype Elem = Element(seg: Seg, next: int) | End | Unknown(code: int)

  function ElemAt(w: seq<int>, d: int): (r: Elem)
    ensures r.Element? ==> r.next > d
    ensures r.End? <==> At(w, d) == 0
    ensures r.Unknown? <==> At(w, d) !in {0, 2, 5, 6, 8}
  {
    var code := At(w, d);
    if code == 0 then End
    else if code == 2 then Element(MoveTo(At(w, d + 1), At(w, d + 2)), d + 3)
    else if code == 5 then Element(ClosePath, d + 1)
    else if code == 6 then
      Element(CurveTo(At(w, d + 1), At(w, d + 2), At(w, d + 3),
                      At(w, d + 4), At(w, d + 5), At(w, d + 6)), d + 7)
    else if code == 8 then Element(LineTo(At(w, d + 1), At(w, d + 2)), d + 3)
    else Unknown(code)
  }

  /** The command for segment `s` when the last point is `(lx, ly)`, and the
      last point afterwards. A line that keeps x is a `v` (so a line of
      length zero is `v0`), one that keeps y an `h`; a close leaves the last
      point where it was. */
  function Relative(s: Seg, lx: int, ly: int): (r: (Cmd, int, int))
  {
    match s
    case MoveTo(x, y) => (M(x, -y), x, y)
    case ClosePath => (Z, lx, ly)
    case CurveTo(x1, y1, x2, y2, x3, y3) =>
      (C(x1 - lx, -(y1 - ly), x2 - lx, -(y2 - ly), x3 - lx, -(y3 - ly)), x3, y3)
    case LineTo(x, y) =>
      if x == lx then (V(-(y - ly)), x, y)
      else if y == ly then (H(x - lx), x, y)
      else (L(x - lx, -(y - ly)), x, y)
  }

  /** The diagnostic for an element code `plot_path` does not know. */
  function PathAbort(code: int): Event
  {
    Diag("Path aborted: element is " + IntToString(code) + "\n")
  }

  /** `plot_path` over the elements in `[d, e)`, appending to `acc` what it
      emits at indentation `ind`, the last point being `(lx, ly)`. */
  function PathLog(acc: seq<Event>, ind: int, w: seq<int>, d: int, e: int, lx: int, ly: int): seq<Event>
    decreases e - d
  {
    if d >= e then acc
    else match ElemAt(w, d)
      case End => acc
      case Unknown(code) => acc + [PathAbort(code)]
      case Element(s, next) =>
        var (c, x, y) := Relative(s, lx, ly);
        PathLog(acc + [Out(ind, true, Lit(CmdText(c)))], ind, w, next, e, x, y)
  }

  /** One element of the walk: its command is appended and the walk goes
      on from the next element with the new last point. */
  lemma PathLogStep(acc: seq<Event>, ind: int, w: seq<int>, d: int, e: int, lx: int, ly: int,
                    s: Seg, next: int, c: Cmd, x: int, y: int)
    requires d < e && ElemAt(w, d) == Element(s, next) && Relative(s, lx, ly) == (c, x, y)
    ensures PathLog(acc, ind, w, d, e, lx, ly)
            == PathLog(acc + [Out(ind, true, Lit(CmdText(c)))], ind, w, next, e, x, y)
  {
  }

  /** The segments of the path in `[d, e)`, up to the end marker or an
      unknown code. */
  function Segs(w: seq<int>, d: int, e: int): seq<Seg>
    decreases e - d
  {
    if d >= e then []
    else match ElemAt(w, d)
      case Element(s, next) => [s] + Segs(w, next, e)
      case _ => []
  }

  /** The diagnostic, if any, that ends the walk over `[d, e)`. */
  function PathStop(w: seq<int>, d: int, e: int): seq<Event>
    decreases e - d
  {
    if d >= e then []
    else match ElemAt(w, d)
      case Element(_, next) => PathStop(w, next, e)
      case End => []
      case Unknown(code) => [PathAbort(code)]
  }

  /** One element of the walk: the segment is read and the walk goes on
      from the next element. */
  lemma SegsStep(w: seq<int>, d: int, e: int, s: Seg, next: int)
    requires d < e && ElemAt(w, d) == Element(s, next)
    ensures Segs(w, d, e) == [s] + Segs(w, next, e)
    ensures PathStop(w, d, e) == PathStop(w, next, e)
  {
  }

  /** The commands for a run of segments starting from last point `(lx, ly)`. */
  function Rel(segs: seq<Seg>, lx: int, ly: int): (r: seq<Cmd>)
    ensures |r| == |segs|
  {
    if segs == [] then []
    else
      var (c, x, y) := Relative(segs[0], lx, ly);
      [c] + Rel(segs[1..], x, y)
  }

  function Outs(ind: int, cmds: seq<Cmd>): (r: seq<Event>)
    ensures |r| == |cmds|
  {
    if cmds == [] then [] else [Out(ind, true, Lit(CmdText(cmds[0])))] + Outs(ind, cmds[1..])
  }

  /** What `plot_path` emits is one command per segment, relative to the
      previous one and starting from (0, 0), then at most one diagnostic. */
  lemma {:induction false} PathLogIsCommands(acc: seq<Event>, ind: int, w: seq<int>, d: int, e: int, lx: int, ly: int)
    ensures PathLog(acc, ind, w, d, e, lx, ly) == acc + Outs(ind, Rel(Segs(w, d, e), lx, ly)) + PathStop(w, d, e)
    decreases e - d
  {
    if d < e {
      match ElemAt(w, d)
      case End =>
      case Unknown(code) =>
      case Element(s, next) =>
        var (c, x, y) := Relative(s, lx, ly);
        var ev := Out(ind, true, Lit(CmdText(c)));
        PathLogIsCommands(acc + [ev], ind, w, next, e, x, y);
        var segs := Segs(w, d, e);
        assert segs == [s] + Segs(w, next, e);
        assert segs[1..] == Segs(w, next, e);
        assert Rel(segs, lx, ly) == [c] + Rel(Segs(w, next, e), x, y);
        var rest := Outs(ind, Rel(Segs(w, next, e), x, y));
        assert Outs(ind, Rel(segs, lx, ly)) == [ev] + rest;
        Assoc(acc, [ev], rest);
        Assoc(acc, [ev] + rest, PathStop(w, d, e));
        Assoc(acc + [ev], rest, PathStop(w, d, e));
    }
  }

  /** The words that hold a run of segments. */
  function Encode(segs: seq<Seg>): seq<int>
  {
    if segs == [] then []
    else EncodeOne(segs[0]) + Encode(segs[1..])
  }

  function EncodeOne(s: Seg): (r: seq<int>)
    ensures |r| > 0
  {
    match s
    case MoveTo(x, y) => [2, x, y]
    case ClosePath => [5]
    case CurveTo(x1, y1, x2, y2, x3, y3) => [6, x1, y1, x2, y2, x3, y3]
    case LineTo(x, y) => [8, x, y]
  }

  lemma ElemAtEncodeOne(pre: seq<int>, s: Seg, post: seq<int>)
    ensures ElemAt(pre + EncodeOne(s) + post, |pre|) == Element(s, |pre| + |EncodeOne(s)|)
  {
    var w := pre + EncodeOne(s) + post;
    var n := |pre|;
    match s
    case MoveTo(x, y) =>
      assert At(w, n) == 2 && At(w, n + 1) == x && At(w, n + 2) == y;
    case ClosePath =>
      assert At(w, n) == 5;
    case CurveTo(x1, y1, x2, y2, x3, y3) =>
      assert At(w, n) == 6 && At(w, n + 1) == x1 && At(w, n + 2) == y1;
      assert At(w, n + 3) == x2 && At(w, n + 4) == y2;
      assert At(w, n + 5) == x3 && At(w, n + 6) == y3;
    case LineTo(x, y) =>
      assert At(w, n) == 8 && At(w, n + 1) == x && At(w, n + 2) == y;
  }

  /** Decoding the words of a run of segments, followed by the end marker
      and anything else, gives the run back, and the walk stops at the
      marker without a diagnostic. */
  lemma {:induction false} DecodeEncode(w: seq<int>, pre: seq<int>, segs: seq<Seg>, post: seq<int>, e: int)
    requires w == pre + Encode(segs) + post && post != [] && post[0] == 0
    requires |pre| + |Encode(segs)| < e
    ensures Segs(w, |pre|, e) == segs
    ensures PathStop(w, |pre|, e) == []
    decreases |segs|
  {
    if segs == [] {
      assert At(w, |pre|) == 0;
    } else {
      var one := EncodeOne(segs[0]);
      var rest := Encode(segs[1..]);
      assert Encode(segs) == one + rest;
      assert w == pre + one + (rest + post) by {
        Assoc(pre, one, rest);
        Assoc(pre + one, rest, post);
        Assoc(pre, one, rest + post);
      }
      ElemAtEncodeOne(pre, segs[0], rest + post);
      assert w == (pre + one) + rest + post by {
        Assoc(pre, one, rest + post);
        Assoc(pre + one, rest, post);
      }
      DecodeEncode(w, pre + one, segs[1..], post, e);
      SegsStep(w, |pre|, e, segs[0], |pre + one|);
    }
  }

  /** How an SVG reader turns commands back into absolute drawfile segments:
      `(cx, cy)` is the current point and `(sx, sy)` the start of the current
      subpath, where `z` leaves the pen. */
  function Absolute(cmds: seq<Cmd>, cx: int, cy: int, sx: int, sy: int): (r: seq<Seg>)
    ensures |r| == |cmds|
  {
    if cmds == [] then []
    else match cmds[0]
      case M(x, y) => [MoveTo(x, -y)] + Absolute(cmds[1..], x, -y, x, -y)
      case Z => [ClosePath] + Absolute(cmds[1..], sx, sy, sx, sy)
      case C(a, b, p, q, dx, dy) =>
        [CurveTo(cx + a, cy - b, cx + p, cy - q, cx + dx, cy - dy)]
        + Absolute(cmds[1..], cx + dx, cy - dy, sx, sy)
      case V(dy) => [LineTo(cx, cy - dy)] + Absolute(cmds[1..], cx, cy - dy, sx, sy)
      case H(dx) => [LineTo(cx + dx, cy)] + Absolute(cmds[1..], cx + dx, cy, sx, sy)
      case L(dx, dy) => [LineTo(cx + dx, cy - dy)] + Absolute(cmds[1..], cx + dx, cy - dy, sx, sy)
  }

  /** Every close is followed by a move or ends the run. */
  predicate MoveAfterClose(segs: seq<Seg>)
  {
    forall i :: 0 <= i < |segs| - 1 && segs[i] == ClosePath ==> segs[i + 1].MoveTo?
  }

  /** Reading the relative commands back from the same starting point gives
      the original absolute segments. */
  lemma {:induction false} AbsoluteRel(segs: seq<Seg>, lx: int, ly: int, cx: int, cy: int, sx: int, sy: int)
    requires MoveAfterClose(segs)
    requires (cx, cy) == (lx, ly) || segs == [] || segs[0].MoveTo?
    ensures Absolute(Rel(segs, lx, ly), cx, cy, sx, sy) == segs
    decreases |segs|
  {
    if segs != [] {
      var (c, x, y) := Relative(segs[0], lx, ly);
      var cmds := Rel(segs, lx, ly);
      assert cmds == [c] + Rel(segs[1..], x, y);
      assert cmds[1..] == Rel(segs[1..], x, y);
      assert MoveAfterClose(segs[1..]) by {
        forall i | 0 <= i < |segs[1..]| - 1 && segs[1..][i] == ClosePath
          ensures segs[1..][i + 1].MoveTo?
        {
          assert segs[i + 1] == ClosePath;
        }
      }
      match segs[0]
      case MoveTo(mx, my) =>
        AbsoluteRel(segs[1..], x, y, mx, my, mx, my);
      case ClosePath =>
        assert |segs| > 1 ==> segs[1].MoveTo?;
        AbsoluteRel(segs[1..], x, y, sx, sy, sx, sy);
      case CurveTo(x1, y1, x2, y2, x3, y3) =>
        AbsoluteRel(segs[1..], x, y, x, y, sx, sy);
      case LineTo(lx2, ly2) =>
        AbsoluteRel(segs[1..], x, y, x, y, sx, sy);
    }
  }

  /** The SVG path data `plot_path` writes for a well-formed path describes
      the drawfile path itself: read back by an SVG reader starting at the
      origin, it gives the path's own segments. */
  lemma PathRoundTrip(w: seq<int>, d: int, e: int)
    requires MoveAfterClose(Segs(w, d, e))
    ensures Absolute(Rel(Segs(w, d, e), 0, 0), 0, 0, 0, 0) == Segs(w, d, e)
  {
    AbsoluteRel(Segs(w, d, e), 0, 0, 0, 0, 0, 0);
  }

  /** Path data opens and closes no `<g>` element. */
  lemma {:induction false} PathLogDepth(acc: seq<Event>, ind: int, w: seq<int>, d: int, e: int, lx: int, ly: int)
    ensures Depth(PathLog(acc, ind, w, d, e, lx, ly)) == Depth(acc)
    decreases e - d
  {
    if d < e {
      match ElemAt(w, d)
      case End =>
      case Unknown(code) =>
        DepthAdd(acc, PathAbort(code));
      case Element(s, next) =>
        var (c, x, y) := Relative(s, lx, ly);
        assert CmdText(c)[0] != '<';
        PlainText(ind, true, CmdText(c));
        DepthAdd(acc, Out(ind, true, Lit(CmdText(c))));
        PathLogDepth(acc + [Out(ind, true, Lit(CmdText(c)))], ind, w, next, e, x, y);
    }
  }
}
