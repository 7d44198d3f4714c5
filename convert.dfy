/** The drawfile walker of theconv.c: `convert_list`, `convert` and
    `convert_group` go over the objects of a drawfile, keep the font table
    that font-table objects (tag 0) fill in, and hand paths, text and
    groups to their converters, which write through the indenting writer.

    The converter's state (`struct ws`) is the class `Converter`: what it
    has written so far (`log`), the indentation in effect (`indent`) and the
    font table (`font`). What the OS computes for it, the outline records
    of painted text and the thickened outline of a stroke, are fixed
    inputs of the converter. */
module Convert {

  import opened Words
  import opened Events
  import opened PathData
  import opened Caps
  import opened PathStyle
  import opened TextPath

  /** The 256 font names, indexed by font number. */
  type FontTable = f: seq<string> | |f| == 256 witness seq(256, _ => "")

  /** A font number: the byte that selects one of the table's names. */
  type FontNo = n: nat | n < 256

  const DefaultFont: string := "System.Fixed"

  /** The index of the first NUL at or after byte address `b` (a read past
      the buffer reads NUL). */
  function NameEnd(w: seq<int>, b: int): (r: int)
    ensures r >= b && ByteAt(w, r) == 0
    ensures forall k :: b <= k < r ==> ByteAt(w, k) != 0
    decreases 4 * |w| - b
  {
    if b >= 4 * |w| then ByteAtOutside(w, b); b
    else if ByteAt(w, b) == 0 then b
    else NameEnd(w, b + 1)
  }

  lemma ByteAtOutside(w: seq<int>, b: int)
    requires b >= 4 * |w|
    ensures ByteAt(w, b) == 0
  {
    assert b / 4 >= |w|;
  }

  /** The entries of a font-table object from byte address `b` to byte
      address `end`: each is a font number byte followed by the font's
      NUL-terminated name; a zero number byte ends the table. */
  function FontEntries(w: seq<int>, b: int, end: int): (r: seq<(FontNo, string)>)
    ensures forall k :: 0 <= k < |r| ==> 0 < r[k].0
    decreases end - b
  {
    if b >= end || ByteAt(w, b) == 0 then []
    else [(ByteAt(w, b), CString(w, b + 1))] + FontEntries(w, NameEnd(w, b + 1) + 1, end)
  }

  /** The word offset of a group object's first member: after its nine
      header words (tag, size, bounding box and twelve-byte name). */
  function FirstChild(d: int): int
  {
    d + 9
  }

  /** The entries of the font-table object at word `d`: its bytes after the
      two header words, up to the byte length in its second word. */
  function FontObjectEntries(w: seq<int>, d: int): seq<(FontNo, string)>
  {
    FontEntries(w, 4 * d + 8, 4 * d + At(w, d + 1))
  }

  /** The font table after the entries `es` are stored in order. */
  function FontsAfter(font: FontTable, es: seq<(FontNo, string)>): FontTable
    decreases |es|
  {
    if es == [] then font else FontsAfter(font[es[0].0 := es[0].1], es[1..])
  }

  /** One entry of a font table: its name `name` is stored under its number
      `n` and the walk goes on at `next`, after the name's NUL. */
  lemma FontEntriesStep(font: FontTable, w: seq<int>, b: int, end: int, n: FontNo, name: string, next: int)
    requires b < end && n == ByteAt(w, b) != 0
    requires name == CString(w, b + 1) && next == NameEnd(w, b + 1) + 1
    ensures FontsAfter(font, FontEntries(w, b, end)) == FontsAfter(font[n := name], FontEntries(w, next, end))
  {
    var es := FontEntries(w, b, end);
    assert es[1..] == FontEntries(w, next, end);
  }

  /** The walk stops at the end address or at a zero number byte. */
  lemma FontEntriesDone(w: seq<int>, b: int, end: int)
    requires b >= end || ByteAt(w, b) == 0
    ensures FontEntries(w, b, end) == []
  {
  }

  /** A font number names the font of the last entry that defines it; a
      number no entry defines keeps its font. */
  lemma {:induction false} FontsLastWins(font: FontTable, es: seq<(FontNo, string)>, i: FontNo)
    ensures (forall k :: 0 <= k < |es| ==> es[k].0 != i) ==> FontsAfter(font, es)[i] == font[i]
    ensures forall k :: 0 <= k < |es| && es[k].0 == i && (forall j :: k < j < |es| ==> es[j].0 != i)
                        ==> FontsAfter(font, es)[i] == es[k].1
    decreases |es|
  {
    if es != [] {
      var f: FontTable := font[es[0].0 := es[0].1];
      FontsLastWins(f, es[1..], i);
      forall k | 0 <= k < |es| && es[k].0 == i && (forall j :: k < j < |es| ==> es[j].0 != i)
        ensures FontsAfter(font, es)[i] == es[k].1
      {
        if k > 0 {
          assert es[1..][k - 1] == es[k];
          forall j | k - 1 < j < |es| - 1
            ensures es[1..][j].0 != i
          {
            assert es[1..][j] == es[j + 1];
          }
        } else {
          forall j | 0 <= j < |es| - 1
            ensures es[1..][j].0 != i
          {
            assert es[1..][j] == es[j + 1];
          }
        }
      }
      if forall k :: 0 <= k < |es| ==> es[k].0 != i {
        forall j | 0 <= j < |es| - 1
          ensures es[1..][j].0 != i
        {
          assert es[1..][j] == es[j + 1];
        }
      }
    }
  }

  /** The name of the font a text object at `d` asks for. */
  function FontName(font: FontTable, w: seq<int>, d: int): string
  {
    font[U32(At(w, d + 8 + TextOffset(w, d))) % 256]
  }

  /** The own `<path>` of the path object at `d` that ends at word `e`, at
      indentation `b`: its stroke and fill attributes, then its path data. */
  function DrawnPathLog(acc: seq<Event>, b: int, w: seq<int>, d: int, e: int): seq<Event>
  {
    PathTag(acc, b, StrokeAttrs(w, d), FillAttrs(w, d), w, PathStart(w, d), e)
  }

  /** A `<path>` at indentation `b` with the `style` attributes `s1` then
      `s2` and the path data in `[p, e)` of `w`. */
  function PathTag(acc: seq<Event>, b: int, s1: seq<Attr>, s2: seq<Attr>, w: seq<int>, p: int, e: int): seq<Event>
  {
    var a := AttrsLog(acc + [Say(b, "<path style='")], b + 13, s1);
    var a := AttrsLog(a, b + 13, s2);
    PathLog(a + [Say(b + 6, "d='")], b + 9, w, p, e, 0, 0) + [Say(b, "' />\n")]
  }

  /** The steps of a path object's own `<path>`, in order. */
  lemma DrawnPathSteps(acc: seq<Event>, b: int, w: seq<int>, d: int, e: int, l1: seq<Event>, l2: seq<Event>, l3: seq<Event>)
    requires l1 == AttrsLog(acc + [Say(b, "<path style='")], b + 13, StrokeAttrs(w, d))
    requires l2 == AttrsLog(l1, b + 13, FillAttrs(w, d))
    requires l3 == PathLog(l2 + [Say(b + 6, "d='")], b + 9, w, PathStart(w, d), e, 0, 0)
    ensures DrawnPathLog(acc, b, w, d, e) == l3 + [Say(b, "' />\n")]
  {
  }

  /** The `<path>` of a divided path's caps at indentation `b`, `stroked`
      being the OS's thickened outline of the path. */
  function CapsPathLog(acc: seq<Event>, b: int, w: seq<int>, d: int, stroked: seq<int>): seq<Event>
  {
    var st := DecodeStyle(At(w, d + 9));
    var a := AttrsLog(acc + [Say(b, "<path style='")], b + 13, CapAttrs(w, d));
    CapsLog(a + [Say(b + 6, "d='")], b + 9, stroked, 0, |stroked|, st.startCap, st.endCap, true, None, None)
    + [Say(b, "' />\n")]
  }

  /** Everything `convert_path` writes for the path object at `d` at
      indentation `ind`. The object's own `<path>` is drawn when the outline
      or the fill is drawn; divided caps are a second `<path>`, the two in a
      `<g>`. */
  function PathObjectLog(acc: seq<Event>, ind: int, w: seq<int>, d: int, stroked: seq<int>): seq<Event>
  {
    var grouped := Draws(w, d) && Divide(w, d);
    var b := if grouped then ind + 2 else ind;
    var a := if grouped then acc + [Say(ind, "<g>\n")] else acc;
    var a := if Draws(w, d) then DrawnPathLog(a, b, w, d, Next(w, d)) else a;
    var a := if Divide(w, d) then CapsPathLog(a, b, w, d, stroked) else a;
    if grouped then a + [Say(ind, "</g>\n")] else a
  }

  /** The steps of a path object, in order. */
  lemma PathObjectSteps(acc: seq<Event>, ind: int, w: seq<int>, d: int, stroked: seq<int>, b: int,
                        a1: seq<Event>, a2: seq<Event>, a3: seq<Event>)
    requires b == if Draws(w, d) && Divide(w, d) then ind + 2 else ind
    requires a1 == if Draws(w, d) && Divide(w, d) then acc + [Say(ind, "<g>\n")] else acc
    requires a2 == if Draws(w, d) then DrawnPathLog(a1, b, w, d, Next(w, d)) else a1
    requires a3 == if Divide(w, d) then CapsPathLog(a2, b, w, d, stroked) else a2
    ensures PathObjectLog(acc, ind, w, d, stroked)
            == if Draws(w, d) && Divide(w, d) then a3 + [Say(ind, "</g>\n")] else a3
  {
  }

  /** Whether a path object's own `<path>` is drawn: its outline or its fill
      is not transparent. */
  predicate Draws(w: seq<int>, d: int)
  {
    Transparency(At(w, d + 7)) != 0 || Transparency(At(w, d + 6)) != 0
  }

  lemma PathTagDepth(acc: seq<Event>, b: int, s1: seq<Attr>, s2: seq<Attr>, w: seq<int>, p: int, e: int)
    ensures Depth(PathTag(acc, b, s1, s2, w, p, e)) == Depth(acc)
  {
    var a0 := acc + [Say(b, "<path style='")];
    DepthAdd(acc, Say(b, "<path style='"));
    var a1 := AttrsLog(a0, b + 13, s1);
    AttrsLogDepth(a0, b + 13, s1);
    var a2 := AttrsLog(a1, b + 13, s2);
    AttrsLogDepth(a1, b + 13, s2);
    DepthAdd(a2, Say(b + 6, "d='"));
    var a3 := PathLog(a2 + [Say(b + 6, "d='")], b + 9, w, p, e, 0, 0);
    PathLogDepth(a2 + [Say(b + 6, "d='")], b + 9, w, p, e, 0, 0);
    PlainText(b, false, "' />\n");
    DepthAdd(a3, Say(b, "' />\n"));
  }

  /** A path object's own `<path>` opens and closes no `<g>` element. */
  lemma DrawnPathDepth(acc: seq<Event>, b: int, w: seq<int>, d: int, e: int)
    ensures Depth(DrawnPathLog(acc, b, w, d, e)) == Depth(acc)
  {
    PathTagDepth(acc, b, StrokeAttrs(w, d), FillAttrs(w, d), w, PathStart(w, d), e);
  }

  /** The `<path>` of divided caps opens and closes no `<g>` element. */
  lemma CapsPathDepth(acc: seq<Event>, b: int, w: seq<int>, d: int, stroked: seq<int>)
    ensures Depth(CapsPathLog(acc, b, w, d, stroked)) == Depth(acc)
  {
    var st := DecodeStyle(At(w, d + 9));
    var a0 := acc + [Say(b, "<path style='")];
    DepthAdd(acc, Say(b, "<path style='"));
    var a1 := AttrsLog(a0, b + 13, CapAttrs(w, d));
    AttrsLogDepth(a0, b + 13, CapAttrs(w, d));
    DepthAdd(a1, Say(b + 6, "d='"));
    var a2 := CapsLog(a1 + [Say(b + 6, "d='")], b + 9, stroked, 0, |stroked|, st.startCap, st.endCap, true, None, None);
    CapsLogDepth(a1 + [Say(b + 6, "d='")], b + 9, stroked, 0, |stroked|, st.startCap, st.endCap, true, None, None);
    PlainText(b, false, "' />\n");
    DepthAdd(a2, Say(b, "' />\n"));
  }

  /** A path object leaves the `<g>` nesting as it found it: the `<g>` that
      pairs a path with its divided caps is closed again. */
  lemma PathObjectDepth(acc: seq<Event>, ind: int, w: seq<int>, d: int, stroked: seq<int>)
    ensures Depth(PathObjectLog(acc, ind, w, d, stroked)) == Depth(acc)
  {
    var grouped := Draws(w, d) && Divide(w, d);
    var b := if grouped then ind + 2 else ind;
    DepthAdd(acc, Say(ind, "<g>\n"));
    var a1 := if grouped then acc + [Say(ind, "<g>\n")] else acc;
    DrawnPathDepth(a1, b, w, d, Next(w, d));
    var a2 := if Draws(w, d) then DrawnPathLog(a1, b, w, d, Next(w, d)) else a1;
    CapsPathDepth(a2, b, w, d, stroked);
    var a3 := if Divide(w, d) then CapsPathLog(a2, b, w, d, stroked) else a2;
    DepthAdd(a3, Say(ind, "</g>\n"));
  }

  /** What the converter has written and its font table. */
  datatype State = State(log: seq<Event>, font: FontTable)

  class Converter {

    /** The drawfile, as words. */
    const w: seq<int>
    /** Whether drawfile groups become `<g>` elements. */
    const groups: bool
    /** Whether text is converted to outlines. */
    const textToPath: bool
    /** The font manager's outline records for a text object painted in the
        named font, or its failure. */
    const outlines: (string, int) -> Option<Outline>
    /** The thickened outline the OS makes of the path object at a word
        index. */
    const strokes: int -> seq<int>

    var log: seq<Event>
    var indent: int
    var font: FontTable

    /** A fresh converter: nothing written, no indentation, and every font
        number naming the system font. */
    constructor(w: seq<int>, groups: bool, textToPath: bool,
                outlines: (string, int) -> Option<Outline>, strokes: int -> seq<int>)
      ensures this.w == w && this.groups == groups && this.textToPath == textToPath
      ensures this.outlines == outlines && this.strokes == strokes
      ensures log == [] && indent == 0
      ensures forall i :: 0 <= i < 256 ==> font[i] == DefaultFont
    {
      this.w := w;
      this.groups := groups;
      this.textToPath := textToPath;
      this.outlines := outlines;
      this.strokes := strokes;
      log := [];
      indent := 0;
      font := seq(256, _ => DefaultFont);
    }

    /** `plot_path`: the path data of the elements in `[d, e)` of `buf`. */
    method PlotPath(buf: seq<int>, d: int, e: int)
      modifies this`log
      ensures log == PathLog(old(log), indent, buf, d, e, 0, 0)
    {
      var p, lx, ly := d, 0, 0;
      while p < e
        invariant PathLog(log, indent, buf, p, e, lx, ly) == PathLog(old(log), indent, buf, d, e, 0, 0)
        decreases e - p
      {
        var code := At(buf, p);
        var s, next;
        if code == 0 {
          return;
        } else if code == 2 {
          s, next := MoveTo(At(buf, p + 1), At(buf, p + 2)), p + 3;
        } else if code == 5 {
          s, next := ClosePath, p + 1;
        } else if code == 6 {
          s := CurveTo(At(buf, p + 1), At(buf, p + 2), At(buf, p + 3), At(buf, p + 4), At(buf, p + 5), At(buf, p + 6));
          next := p + 7;
        } else if code == 8 {
          s, next := LineTo(At(buf, p + 1), At(buf, p + 2)), p + 3;
        } else {
          log := log + [PathAbort(code)];
          return;
        }
        assert ElemAt(buf, p) == Element(s, next);
        var (c, x, y) := Relative(s, lx, ly);
        PathLogStep(log, indent, buf, p, e, lx, ly, s, next, c, x, y);
        log := log + [Out(indent, true, Lit(CmdText(c)))];
        lx, ly, p := x, y, next;
      }
    }

    /** `plot_caps`: the caps of the thickened outline in `[d, e)` of `buf`,
        keeping the last two points in a two-slot window. */
    method PlotCaps(buf: seq<int>, d: int, e: int, scap: int, ecap: int)
      modifies this`log
      ensures log == CapsLog(old(log), indent, buf, d, e, scap, ecap, true, None, None)
    {
      var p := new Option<int>[2](_ => None);
      var start := true;
      var q := d;
      while q < e
        invariant CapsLog(log, indent, buf, q, e, scap, ecap, start, p[0], p[1])
                  == CapsLog(old(log), indent, buf, d, e, scap, ecap, true, None, None)
        decreases e - q
      {
        var code := At(buf, q);
        if code in {0, 2, 3, 7} {
          if !start {
            log := log + CapEvent(indent, ecap, PointAt(buf, p[0]), PointAt(buf, p[1]));
            start := true;
          }
          if code == 0 {
            return;
          }
          Record(p, 2, Some(q + 1));
          q := q + 3;
        } else if code == 4 {
          start := true;
          q := q + 1;
        } else if code == 5 {
          q := q + 1;
        } else if code == 6 {
          log := log + [Diag("Bezier in thickened path?\n")];
          q := q + 7;
        } else if code == 8 {
          if start {
            log := log + CapEvent(indent, scap, Some(Point(At(buf, q + 1), At(buf, q + 2))), PointAt(buf, p[1]));
            start := false;
          }
          Record(p, 2, Some(q + 1));
          q := q + 3;
        } else {
          log := log + [Diag("Cap path aborted: element is " + IntToString(code) + "\n")];
          return;
        }
      }
    }

    /** One style attribute other than the dash pattern. */
    method Attribute(a: Attr)
      requires !a.Dashes?
      modifies this`log
      ensures log == AttrLog(old(log), indent, a)
    {
      match a
      case Prop(name, value, tail) =>
        log := log + [Say(indent, name + ": " + value + ";" + tail)];
      case OpacityOf(prop, t) =>
        log := log + [Out(indent, false, Opacity(prop, t))];
      case Width(v) =>
        log := log + [Say(indent, "stroke-width: ")];
        if v.Some? {
          log := log + [Say(indent, IntToString(v.value) + ";\n")];
        } else {
          log := log + [Out(indent, false, ThinWidth)];
        }
    }

    /** Appends attribute `a` to a run `done` already written since `log0`. */
    method Put(a: Attr, ghost log0: seq<Event>, ghost done: seq<Attr>)
      requires !a.Dashes?
      requires log == AttrsLog(log0, indent, done)
      modifies this`log
      ensures log == AttrsLog(log0, indent, done + [a])
    {
      AttrsLogSnoc(log0, indent, done, a);
      Attribute(a);
    }

    /** The dash pattern of the path object at `d`. */
    method DashArray(d: int, ghost log0: seq<Event>, ghost done: seq<Attr>)
      requires log == AttrsLog(log0, indent, done)
      modifies this`log
      ensures log == AttrsLog(log0, indent, done + [Dashes(DashElems(w, d))])
    {
      AttrsLogSnoc(log0, indent, done, Dashes(DashElems(w, d)));
      log := log + [Say(indent, "stroke-dasharray:")];
      DashLengths(d);
      log := log + [Say(indent, ";\n")];
    }

    /** The dash lengths: the count and the lengths are read from the
        object and written straight to the file. */
    method DashLengths(d: int)
      modifies this`log
      ensures log == DashLog(old(log), DashElems(w, d), 0)
    {
      ghost var elems := DashElems(w, d);
      var i := 0;
      while i < At(w, d + 11)
        invariant 0 <= i <= |elems|
        invariant DashLog(log, elems, i) == DashLog(old(log), elems, 0)
      {
        var item := Raw((if i > 0 then "," else "") + " " + IntToString(At(w, d + 12 + i)));
        assert DashLog(log, elems, i) == DashLog(log + [item], elems, i + 1);
        log := log + [item];
        i := i + 1;
      }
    }

    /** The stroke attributes of the path object at `d`. */
    method StrokeStyle(d: int, divide: bool)
      requires divide == Divide(w, d)
      modifies this`log
      ensures log == AttrsLog(old(log), indent, StrokeAttrs(w, d))
    {
      var st := DecodeStyle(At(w, d + 9));
      var ow := At(w, d + 7);
      var otr := Transparency(ow);
      ghost var log0 := log;
      if otr == 0 {
        Put(Prop("stroke", "none", "\n"), log0, []);
        return;
      }
      var cap := if divide then 0 else st.startCap;
      StrokeHead(Colour(ow), otr, cap, st.join);
      ghost var done := [Prop("stroke", Colour(ow), "\n")]
        + When(otr != 255, [OpacityOf("stroke", otr)])
        + When(cap != 0, [Prop("stroke-linecap", CapNames[cap], "\n")])
        + When(st.join != 0, [Prop("stroke-linejoin", JoinNames[st.join], "\n")]);
      ghost var dash := if st.dashed then Some((DashElems(w, d), At(w, d + 10))) else None;
      if st.dashed {
        DashArray(d, log0, done);
        Put(Prop("stroke-dashoffset", IntToString(At(w, d + 10)), "\n"), log0, done + [Dashes(DashElems(w, d))]);
        Assoc(done, [Dashes(DashElems(w, d))], [Prop("stroke-dashoffset", IntToString(At(w, d + 10)), "\n")]);
        assert DashList(dash) == [Dashes(DashElems(w, d))] + [Prop("stroke-dashoffset", IntToString(At(w, d + 10)), "\n")];
      } else {
        assert done + DashList(dash) == done;
      }
      done := done + DashList(dash);
      var width := At(w, d + 8);
      Put(Width(if width != 0 then Some(width) else None), log0, done);
    }

    /** The stroke colour, opacity, line cap and line join. */
    method StrokeHead(colour: string, otr: nat, cap: nat, join: nat)
      requires cap < 4 && join < 4
      modifies this`log
      ensures log == AttrsLog(old(log), indent,
                              [Prop("stroke", colour, "\n")]
                              + When(otr != 255, [OpacityOf("stroke", otr)])
                              + When(cap != 0, [Prop("stroke-linecap", CapNames[cap], "\n")])
                              + When(join != 0, [Prop("stroke-linejoin", JoinNames[join], "\n")]))
    {
      ghost var log0 := log;
      Put(Prop("stroke", colour, "\n"), log0, []);
      ghost var done := [Prop("stroke", colour, "\n")];
      if otr != 255 {
        Put(OpacityOf("stroke", otr), log0, done);
      }
      AppendWhen(done, otr != 255, [OpacityOf("stroke", otr)]);
      done := done + When(otr != 255, [OpacityOf("stroke", otr)]);
      if cap != 0 {
        Put(Prop("stroke-linecap", CapNames[cap], "\n"), log0, done);
      }
      AppendWhen(done, cap != 0, [Prop("stroke-linecap", CapNames[cap], "\n")]);
      done := done + When(cap != 0, [Prop("stroke-linecap", CapNames[cap], "\n")]);
      if join != 0 {
        Put(Prop("stroke-linejoin", JoinNames[join], "\n"), log0, done);
      }
      AppendWhen(done, join != 0, [Prop("stroke-linejoin", JoinNames[join], "\n")]);
    }

    /** The fill attributes of the path object at `d`, closing the `style`
        attribute. */
    method FillStyle(d: int)
      modifies this`log
      ensures log == AttrsLog(old(log), indent, FillAttrs(w, d))
    {
      var wind := DecodeStyle(At(w, d + 9)).wind;
      var fw := At(w, d + 6);
      var ftr := Transparency(fw);
      ghost var log0 := log;
      if ftr == 0 {
        Put(Prop("fill", "none", "'\n"), log0, []);
        return;
      }
      ghost var done: seq<Attr> := [];
      if wind != 1 {
        Put(Prop("fill-rule", WindNames[wind], "\n"), log0, done);
      }
      AppendWhen(done, wind != 1, [Prop("fill-rule", WindNames[wind], "\n")]);
      done := done + When(wind != 1, [Prop("fill-rule", WindNames[wind], "\n")]);
      if ftr != 255 {
        Put(OpacityOf("fill", ftr), log0, done);
      }
      AppendWhen(done, ftr != 255, [OpacityOf("fill", ftr)]);
      done := done + When(ftr != 255, [OpacityOf("fill", ftr)]);
      Put(Prop("fill", Colour(fw), "'\n"), log0, done);
    }

    /** The attributes of a divided path's caps. */
    method CapStyle(d: int)
      modifies this`log
      ensures log == AttrsLog(old(log), indent, CapAttrs(w, d))
    {
      var ow := At(w, d + 7);
      var otr := Transparency(ow);
      ghost var log0 := log;
      Put(Prop("stroke", "none", "\n"), log0, []);
      Put(Prop("fill", Colour(ow), "\n"), log0, [Prop("stroke", "none", "\n")]);
      ghost var done := [Prop("stroke", "none", "\n"), Prop("fill", Colour(ow), "\n")];
      assert [Prop("stroke", "none", "\n")] + [Prop("fill", Colour(ow), "\n")] == done;
      if otr != 255 {
        Put(OpacityOf("fill", otr), log0, done);
      }
      AppendWhen(done, otr != 255, [OpacityOf("fill", otr)]);
      done := done + When(otr != 255, [OpacityOf("fill", otr)]);
      Put(Prop("fill-rule", "nonzero", "'\n"), log0, done);
    }

    /** The own `<path>` of the path object at `d` that ends at word `e`. */
    method DrawnPath(d: int, e: int, divide: bool)
      requires divide == Divide(w, d)
      modifies this`log, this`indent
      ensures log == DrawnPathLog(old(log), old(indent), w, d, e)
      ensures indent == old(indent)
    {
      var b := indent;
      log := log + [Say(b, "<path style='")];
      indent := b + 13;
      StrokeStyle(d, divide);
      ghost var l1 := log;
      FillStyle(d);
      ghost var l2 := log;
      indent := b + 6;
      log := log + [Say(b + 6, "d='")];
      indent := b + 9;
      var start := PathStart(w, d);
      PlotPath(w, start, e);
      DrawnPathSteps(old(log), b, w, d, e, l1, l2, log);
      indent := b;
      log := log + [Say(b, "' />\n")];
    }

    /** The caps of a divided path, drawn as the OS's thickened outline. */
    method CapsPath(d: int)
      modifies this`log, this`indent
      ensures log == CapsPathLog(old(log), old(indent), w, d, strokes(d))
      ensures indent == old(indent)
    {
      var st := DecodeStyle(At(w, d + 9));
      var thick := strokes(d);
      log := log + [Say(indent, "<path style='")];
      indent := indent + 13;
      CapStyle(d);
      indent := indent - 7;
      log := log + [Say(indent, "d='")];
      indent := indent + 3;
      PlotCaps(thick, 0, |thick|, st.startCap, st.endCap);
      indent := indent - 9;
      log := log + [Say(indent, "' />\n")];
    }

    /** `convert_path`: the path object at `d`. */
    method ConvertPath(d: int)
      modifies this`log, this`indent
      ensures log == PathObjectLog(old(log), old(indent), w, d, strokes(d))
      ensures indent == old(indent)
    {
      var st := DecodeStyle(At(w, d + 9));
      var otr := Transparency(At(w, d + 7));
      var ftr := Transparency(At(w, d + 6));
      var divide := otr != 0 && At(w, d + 8) != 0
                    && (st.startCap != st.endCap || st.startCap == 3 || st.endCap == 3);
      var ind := indent;
      ghost var a0 := log;
      if otr != 0 || ftr != 0 {
        if divide {
          log := log + [Say(ind, "<g>\n")];
          indent := ind + 2;
        }
      }
      ghost var a1 := log;
      if otr != 0 || ftr != 0 {
        DrawnPath(d, Next(w, d), divide);
      }
      ghost var a2 := log;
      if divide {
        CapsPath(d);
      }
      PathObjectSteps(a0, ind, w, d, strokes(d), indent, a1, a2, log);
      if divide && (otr != 0 || ftr != 0) {
        indent := ind;
        log := log + [Say(ind, "</g>\n")];
      }
    }

    /** The text group's `style` attributes, for fill colour word `fw` and
        majority rule `rule`. */
    method GroupStyle(fw: int, rule: nat)
      requires rule < 2
      modifies this`log
      ensures log == AttrsLog(old(log), indent, GroupAttrs(Transparency(fw), Colour(fw), rule))
    {
      var ftr := Transparency(fw);
      ghost var log0 := log;
      Put(Prop("stroke", "none", "\n"), log0, []);
      ghost var done := [Prop("stroke", "none", "\n")];
      if ftr == 0 {
        Put(Prop("fill", "none", "'>\n"), log0, done);
        assert done + [Prop("fill", "none", "'>\n")] == GroupAttrs(ftr, Colour(fw), rule);
        return;
      }
      if ftr != 255 {
        Put(OpacityOf("fill", ftr), log0, done);
      }
      AppendWhen(done, ftr != 255, [OpacityOf("fill", ftr)]);
      done := done + When(ftr != 255, [OpacityOf("fill", ftr)]);
      if rule != 1 {
        Put(Prop("fill-rule", WindNames[rule], "\n"), log0, done);
      }
      AppendWhen(done, rule != 1, [Prop("fill-rule", WindNames[rule], "\n")]);
      done := done + When(rule != 1, [Prop("fill-rule", WindNames[rule], "\n")]);
      Put(Prop("fill", Colour(fw), "'>\n"), log0, done);
    }

    /** The outline records of painted text, each as a `<path>`. */
    method TextRecords(buf: Outline, rule: nat)
      requires rule < 2
      modifies this`log, this`indent
      ensures log == RecordsLog(old(log), old(indent), buf, 0, rule)
      ensures indent == old(indent)
    {
      var pos := 0;
      while pos < |buf| && At(buf, pos) != 0
        invariant RecordsOk(buf, pos) && indent == old(indent)
        invariant RecordsLog(log, indent, buf, pos, rule) == RecordsLog(old(log), indent, buf, 0, rule)
        decreases |buf| - pos
      {
        TextRecord(buf, pos, rule);
        pos := Next(buf, pos);
      }
    }

    /** One outline record: a `<path>` with a fill-rule override when its
        winding is not `rule`, and its path data. */
    method TextRecord(buf: seq<int>, pos: int, rule: nat)
      requires rule < 2
      modifies this`log, this`indent
      ensures log == RecordLog(old(log), old(indent), buf, pos, rule)
      ensures indent == old(indent)
    {
      var b := indent;
      var r := WindBit(buf, pos);
      log := log + [Say(b, "<path ")];
      indent := b + 6;
      if r != rule {
        log := log + [Say(b + 6, "style='fill-rule: " + WindNames[r] + ";'\n")];
      }
      log := log + [Say(b + 6, "d='")];
      ghost var l1 := log;
      indent := b + 9;
      PlotPath(buf, RecordPathStart(buf, pos), RecordPathEnd(buf, pos));
      RecordSteps(old(log), b, buf, pos, rule, l1, log);
      log := log + [Say(b + 9, "' />\n")];
      indent := b;
    }

    /** `convert_text_path`: the text object at `d` as the outlines the
        font manager paints of it, in the font its font number names. */
    method ConvertTextPath(d: int)
      modifies this`log, this`indent
      ensures log == TextPathLog(old(log), old(indent), w, d, outlines(FontName(font, w, d), d))
      ensures indent == old(indent)
    {
      var name := FontName(font, w, d);
      var painted := outlines(name, d);
      if painted.None? {
        return;
      }
      TextGroup(painted.value, TextFill(w, d));
    }

    /** The group `convert_text_path` writes for the painted records `buf`. */
    method TextGroup(buf: Outline, fw: int)
      modifies this`log, this`indent
      ensures log == TextGroupLog(old(log), old(indent), buf, fw)
      ensures indent == old(indent)
    {
      var rule := Vote(buf);
      var b := indent;
      log := log + [Say(b, "<g style='")];
      indent := b + 10;
      GroupStyle(fw, rule);
      ghost var l1 := log;
      indent := b + 2;
      TextRecords(buf, rule);
      TextGroupSteps(old(log), b, buf, fw, l1, log);
      indent := b;
      log := log + [Say(b, "</g>\n")];
    }

    /** The font-table object at `d`: each entry names the font of a font
        number, a later entry for the same number winning. */
    method ConvertFonts(d: int)
      modifies this`font
      ensures font == FontsAfter(old(font), FontObjectEntries(w, d))
    {
      var end := 4 * d + At(w, d + 1);
      var pos := 4 * d + 8;
      var f := font;
      while pos < end && ByteAt(w, pos) != 0
        invariant FontsAfter(f, FontEntries(w, pos, end)) == FontsAfter(old(font), FontObjectEntries(w, d))
        decreases end - pos
      {
        var n := ByteAt(w, pos);
        var name := CString(w, pos + 1);
        var next := SkipName(pos + 1);
        FontEntriesStep(f, w, pos, end, n, name, next);
        f, pos := f[n := name], next;
      }
      FontEntriesDone(w, pos, end);
      font := f;
    }

    /** Steps past the NUL-terminated name at byte address `b`. */
    method SkipName(b: int) returns (next: int)
      ensures next == NameEnd(w, b) + 1
    {
      next := b;
      while ByteAt(w, next) != 0
        invariant b <= next <= NameEnd(w, b)
        decreases NameEnd(w, b) - next
      {
        next := next + 1;
      }
      next := next + 1;
    }

    /** The objects in `[p, e)` each have a positive length, and so do
        those of every group among them: the walk ends. */
    predicate ListOk(p: int, e: int)
      decreases |w| - p, 1
    {
      p >= e || (Len(w, p) > 0 && ObjOk(p) && ListOk(Next(w, p), e))
    }

    predicate ObjOk(d: int)
      decreases |w| - d, 0
    {
      At(w, d) == 6 ==> ListOk(FirstChild(d), Next(w, d))
    }

    /** What `convert` does with the object at `d`, from state `s` at
        indentation `ind`: a font table updates the font names; sprites and
        text not converted to outlines go to their own converters; object
        types it does not know change nothing. */
    function ConvertSpec(s: State, ind: int, d: int): State
      requires ObjOk(d)
      decreases |w| - d, 1
    {
      var tag := At(w, d);
      if tag == 0 then State(s.log, FontsAfter(s.font, FontObjectEntries(w, d)))
      else if tag == 5 || tag == 13 then State(s.log + [SpriteObject(d)], s.font)
      else if tag == 1 || tag == 12 then
        if textToPath then State(TextPathLog(s.log, ind, w, d, outlines(FontName(s.font, w, d), d)), s.font)
        else State(s.log + [TextObject(d)], s.font)
      else if tag == 2 then State(PathObjectLog(s.log, ind, w, d, strokes(d)), s.font)
      else if tag == 6 then GroupSpec(s, ind, d)
      else s
    }

    /** The indentation of a group's objects: one level deeper when the
        group is kept as a `<g>`. */
    function ChildIndent(ind: int): int
    {
      if groups then ind + 2 else ind
    }

    /** `convert_group`: the group's objects, in a `<g>` when groups are
        kept. */
    function GroupSpec(s: State, ind: int, d: int): State
      requires At(w, d) == 6 && ListOk(FirstChild(d), Next(w, d))
      decreases |w| - d, 0
    {
      var s1 := if groups then State(s.log + [Say(ind, "<g>\n")], s.font) else s;
      var r := ListSpec(s1, ChildIndent(ind), FirstChild(d), Next(w, d));
      if groups then State(r.log + [Say(ind, "</g>\n")], r.font) else r
    }

    /** The steps of a group, in order. */
    lemma GroupSteps(s: State, ind: int, d: int, s1: State, r: State)
      requires At(w, d) == 6 && ListOk(FirstChild(d), Next(w, d))
      requires s1 == if groups then State(s.log + [Say(ind, "<g>\n")], s.font) else s
      requires r == ListSpec(s1, ChildIndent(ind), FirstChild(d), Next(w, d))
      ensures GroupSpec(s, ind, d) == if groups then State(r.log + [Say(ind, "</g>\n")], r.font) else r
    {
    }

    /** `convert_list`: the objects in `[p, e)` in order. */
    function ListSpec(s: State, ind: int, p: int, e: int): State
      requires ListOk(p, e)
      decreases |w| - p, 2
    {
      if p >= e then s else ListSpec(ConvertSpec(s, ind, p), ind, Next(w, p), e)
    }

    /** A tag `convert` does not know writes nothing and keeps the fonts. */
    lemma UnknownTag(s: State, ind: int, d: int)
      requires ObjOk(d) && At(w, d) !in {0, 1, 2, 5, 6, 12, 13}
      ensures ConvertSpec(s, ind, d) == s
    {
    }

    /** The word offsets `convert_list` visits in `[p, e)`: `p`, then each
        object's offset plus its length, while below `e`. */
    function Offsets(p: int, e: int): (r: seq<int>)
      requires ListOk(p, e)
      ensures p < e <==> r != []
      ensures r != [] ==> r[0] == p && Next(w, r[|r| - 1]) >= e
      ensures forall k :: 0 <= k < |r| ==> p <= r[k] < e && Len(w, r[k]) > 0 && ObjOk(r[k])
      ensures forall k :: 0 <= k < |r| - 1 ==> r[k + 1] == Next(w, r[k])
      decreases |w| - p
    {
      if p >= e then [] else [p] + Offsets(Next(w, p), e)
    }

    /** `convert` applied to the objects at `ds`, in order. */
    function Visit(s: State, ind: int, ds: seq<int>): State
      requires forall k :: 0 <= k < |ds| ==> ObjOk(ds[k])
      decreases |ds|
    {
      if ds == [] then s else Visit(ConvertSpec(s, ind, ds[0]), ind, ds[1..])
    }

    /** `convert_list` converts exactly the objects at its offsets, in
        order, each at the list's indentation. */
    lemma {:induction false} ListVisits(s: State, ind: int, p: int, e: int)
      requires ListOk(p, e)
      ensures ListSpec(s, ind, p, e) == Visit(s, ind, Offsets(p, e))
      decreases |w| - p
    {
      if p < e {
        var ds := Offsets(p, e);
        assert ds[1..] == Offsets(Next(w, p), e);
        ListVisits(ConvertSpec(s, ind, p), ind, Next(w, p), e);
      }
    }

    /** An object leaves the `<g>` nesting as it found it. */
    lemma {:induction false} ConvertDepth(s: State, ind: int, d: int)
      requires ObjOk(d)
      ensures Depth(ConvertSpec(s, ind, d).log) == Depth(s.log)
      decreases |w| - d, 1
    {
      var tag := At(w, d);
      if tag == 5 || tag == 13 {
        DepthAdd(s.log, SpriteObject(d));
      } else if tag == 1 || tag == 12 {
        if !textToPath {
          DepthAdd(s.log, TextObject(d));
        } else if outlines(FontName(s.font, w, d), d).Some? {
          TextGroupDepth(s.log, ind, outlines(FontName(s.font, w, d), d).value, TextFill(w, d));
        }
      } else if tag == 2 {
        PathObjectDepth(s.log, ind, w, d, strokes(d));
      } else if tag == 6 {
        GroupDepth(s, ind, d);
      }
    }

    /** A group closes every `<g>` it opens, its own included. */
    lemma {:induction false} GroupDepth(s: State, ind: int, d: int)
      requires At(w, d) == 6 && ListOk(FirstChild(d), Next(w, d))
      ensures Depth(GroupSpec(s, ind, d).log) == Depth(s.log)
      decreases |w| - d, 0
    {
      var s1 := if groups then State(s.log + [Say(ind, "<g>\n")], s.font) else s;
      var b := ChildIndent(ind);
      DepthAdd(s.log, Say(ind, "<g>\n"));
      ListDepth(s1, b, FirstChild(d), Next(w, d));
      DepthAdd(ListSpec(s1, b, FirstChild(d), Next(w, d)).log, Say(ind, "</g>\n"));
    }

    /** The output of a list of objects is balanced: as many `</g>` as `<g>`
        start tags. */
    lemma {:induction false} ListDepth(s: State, ind: int, p: int, e: int)
      requires ListOk(p, e)
      ensures Depth(ListSpec(s, ind, p, e).log) == Depth(s.log)
      decreases |w| - p, 2
    {
      if p < e {
        ConvertDepth(s, ind, p);
        ListDepth(ConvertSpec(s, ind, p), ind, Next(w, p), e);
      }
    }

    /** `convert`: the object at `d`. */
    method Convert(d: int)
      requires ObjOk(d)
      modifies this`log, this`indent, this`font
      ensures State(log, font) == ConvertSpec(old(State(log, font)), old(indent), d)
      ensures indent == old(indent)
      decreases |w| - d, 1
    {
      var tag := At(w, d);
      if tag == 0 {
        ConvertFonts(d);
      } else if tag == 5 || tag == 13 {
        log := log + [SpriteObject(d)];
      } else if tag == 1 || tag == 12 {
        if textToPath {
          ConvertTextPath(d);
        } else {
          log := log + [TextObject(d)];
        }
      } else if tag == 2 {
        ConvertPath(d);
      } else if tag == 6 {
        ConvertGroup(d);
      }
    }

    /** `convert_group`: the group object at `d`. */
    method ConvertGroup(d: int)
      requires At(w, d) == 6 && ListOk(FirstChild(d), Next(w, d))
      modifies this`log, this`indent, this`font
      ensures State(log, font) == GroupSpec(old(State(log, font)), old(indent), d)
      ensures indent == old(indent)
      decreases |w| - d, 0
    {
      var e := Next(w, d);
      var b := indent;
      ghost var s0 := State(log, font);
      if groups {
        log := log + [Say(b, "<g>\n")];
      }
      indent := ChildIndent(b);
      ghost var s1 := State(log, font);
      ConvertList(FirstChild(d), e);
      GroupSteps(s0, b, d, s1, State(log, font));
      indent := b;
      if groups {
        log := log + [Say(b, "</g>\n")];
      }
    }

    /** `convert_list`: the objects in `[p, e)`. */
    method ConvertList(p: int, e: int)
      requires ListOk(p, e)
      modifies this`log, this`indent, this`font
      ensures State(log, font) == ListSpec(old(State(log, font)), old(indent), p, e)
      ensures indent == old(indent)
      decreases |w| - p, 2
    {
      var q := p;
      while q < e
        invariant p <= q && ListOk(q, e) && indent == old(indent)
        invariant ListSpec(State(log, font), indent, q, e) == ListSpec(old(State(log, font)), indent, p, e)
        decreases e - q
      {
        Convert(q);
        q := Next(w, q);
      }
    }
  }
}
