/** How `convert_path` (theconv.c) reads a path object's header and which
    style attributes it writes. A path object holds, after the common
    six-word header, the fill colour (word 6), the outline colour (word 7),
    the outline width (word 8) and the style word (word 9); a dashed path
    then has a dash offset (word 10), a dash count (word 11) and the dash
    lengths, and the path elements follow. */
module PathStyle {

  import opened Words
  import opened Events

  const JoinNames: seq<string> := ["miter", "round", "bevel", "inherit"]
  const CapNames: seq<string> := ["butt", "round", "square", "inherit"]
  const WindNames: seq<string> := ["nonzero", "evenodd"]

  /** The fields of the style word: join (bits 0-1), end cap (bits 2-3),
      start cap (bits 4-5), winding (bit 6, 1 for even-odd), dashed (bit 7),
      and the triangle cap's width and length in sixteenths of the line
      width (bits 16-23 and 24-31). Bits 8-15 are not read. */
  datatype Style = Style(join: nat, endCap: nat, startCap: nat, wind: nat, dashed: bool,
                         triWidth: nat, triLength: nat)

  predicate ValidStyle(s: Style)
  {
    s.join < 4 && s.endCap < 4 && s.startCap < 4 && s.wind < 2 && s.triWidth < 256 && s.triLength < 256
  }

  /** The fields as `convert_path` extracts them with shifts and masks. */
  function DecodeStyle(word: int): (s: Style)
    ensures ValidStyle(s)
  {
    var u := U32(word);
    Style(u % 4, u / 4 % 4, u / 16 % 4, u / 64 % 2, u / 128 % 2 == 1, u / 0x1_0000 % 256, u / 0x100_0000 % 256)
  }

  /** A style word with the given fields and bits 8-15 clear. */
  function EncodeStyle(s: Style): (word: int)
    requires ValidStyle(s)
    ensures 0 <= word < TwoTo32
    ensures word / 256 % 256 == 0
  {
    var low := s.join + 4 * s.endCap + 16 * s.startCap + 64 * s.wind + 128 * (if s.dashed then 1 else 0);
    var high := s.triWidth + 0x100 * s.triLength;
    DivMod(low + 0x1_0000 * high, 256, 256 * high, low);
    DivMod(256 * high, 256, high, 0);
    low + 0x1_0000 * high
  }

  /** Every field survives being packed into a style word. */
  lemma StyleRoundTrip(s: Style)
    requires ValidStyle(s)
    ensures DecodeStyle(EncodeStyle(s)) == s
  {
    var ds := if s.dashed then 1 else 0;
    var u := EncodeStyle(s);
    var q5 := s.triWidth + 256 * s.triLength;
    var q4 := ds + 512 * q5;
    var q3 := s.wind + 2 * q4;
    var q2 := s.startCap + 4 * q3;
    var q1 := s.endCap + 4 * q2;
    assert u == s.join + 4 * q1;
    DivMod(u, 4, q1, s.join);
    DivMod(q1, 4, q2, s.endCap);
    DivMod(u, 16, q2, s.join + 4 * s.endCap);
    DivMod(q2, 4, q3, s.startCap);
    DivMod(u, 64, q3, s.join + 4 * s.endCap + 16 * s.startCap);
    DivMod(q3, 2, q4, s.wind);
    DivMod(u, 128, q4, s.join + 4 * s.endCap + 16 * s.startCap + 64 * s.wind);
    DivMod(q4, 2, 256 * q5, ds);
    var low := s.join + 4 * s.endCap + 16 * s.startCap + 64 * s.wind + 128 * ds;
    DivMod(u, 0x1_0000, q5, low);
    DivMod(q5, 256, s.triLength, s.triWidth);
    DivMod(u, 0x100_0000, s.triLength, low + 0x1_0000 * s.triWidth);
    DivMod(s.triLength, 256, 0, s.triLength);
  }

  /** Decoding reads every bit of the word except bits 8-15. */
  lemma StyleReadsAllButReserved(word: int)
    ensures EncodeStyle(DecodeStyle(word)) == U32(word) - 256 * (U32(word) / 256 % 256)
  {
    var u := U32(word);
    var j, r1 := u % 4, u / 4;
    var e, r2 := r1 % 4, r1 / 4;
    var sc, r3 := r2 % 4, r2 / 4;
    var wd, r4 := r3 % 2, r3 / 2;
    var ds, r5 := r4 % 2, r4 / 2;
    var b1, r6 := r5 % 256, r5 / 256;
    var tw, tl := r6 % 256, r6 / 256;
    var low := j + 4 * e + 16 * sc + 64 * wd + 128 * ds;
    DivMod(u, 16, r2, j + 4 * e);
    DivMod(u, 64, r3, j + 4 * e + 16 * sc);
    DivMod(u, 128, r4, j + 4 * e + 16 * sc + 64 * wd);
    DivMod(u, 256, r5, low);
    DivMod(u, 0x1_0000, r6, low + 256 * b1);
    DivMod(u, 0x100_0000, tl, low + 256 * b1 + 0x1_0000 * tw);
    assert DecodeStyle(word) == Style(j, e, sc, wd, ds == 1, tw, tl);
  }

  /** `~word & 0xff`: the complement of the colour word's low byte. 0 means
      the paint is not drawn at all, 255 that it is fully opaque. */
  function Transparency(word: int): (t: nat)
    ensures t < 256
    ensures t == 0 <==> U32(word) % 256 == 255
    ensures t == 255 <==> U32(word) % 256 == 0
  {
    255 - U32(word) % 256
  }

  /** `#RRGGBB` from bytes 1, 2 and 3 of a colour word. */
  function Colour(word: int): (c: string)
    ensures |c| == 7 && c[0] == '#'
  {
    var u := U32(word);
    "#" + Hex2(u / 0x100 % 256) + Hex2(u / 0x1_0000 % 256) + Hex2(u / 0x100_0000 % 256)
  }

  /** Whether the caps must be drawn separately from the stroke: the outline
      is drawn, has a width, and its caps differ or either is a triangle. */
  predicate Divide(w: seq<int>, d: int)
  {
    var st := DecodeStyle(At(w, d + 9));
    Transparency(At(w, d + 7)) != 0 && At(w, d + 8) != 0
    && (st.startCap != st.endCap || st.startCap == 3 || st.endCap == 3)
  }

  /** The word index of the first path element: after the dash pattern when
      the path is dashed. */
  function PathStart(w: seq<int>, d: int): int
  {
    d + 10 + (if DecodeStyle(At(w, d + 9)).dashed then 2 + At(w, d + 11) else 0)
  }

  /** The dash lengths, as many as the dash count says (none if it is not
      positive). */
  function DashElems(w: seq<int>, d: int): (r: seq<int>)
    ensures |r| == (if At(w, d + 11) > 0 then At(w, d + 11) else 0)
    ensures forall i :: 0 <= i < |r| ==> r[i] == At(w, d + 12 + i)
  {
    seq(if At(w, d + 11) > 0 then At(w, d + 11) else 0, i => At(w, d + 12 + i))
  }

  /** One style attribute as written. */
  datatype Attr =
      /** `"<name>: <value>;<tail>"`; a tail starting with a quote closes
          the `style` attribute */
    | Prop(name: string, value: string, tail: string)
      /** `"<prop>-opacity: %g;\n"` */
    | OpacityOf(prop: string, t: int)
      /** `"stroke-width: "`, then the width, or the thin-line width when
          absent */
    | Width(v: Option<int>)
      /** `"stroke-dasharray:"`, each length written straight to the file,
          then `";\n"` */
    | Dashes(elems: seq<int>)

  /** The dash lengths from the `i`-th on, as written by `fprintf`. */
  function DashLog(acc: seq<Event>, elems: seq<int>, i: nat): seq<Event>
    requires i <= |elems|
    decreases |elems| - i
  {
    if i == |elems| then acc
    else DashLog(acc + [Raw((if i > 0 then "," else "") + " " + IntToString(elems[i]))], elems, i + 1)
  }

  /** The events that write attribute `a` at indentation `ind`. */
  function AttrLog(acc: seq<Event>, ind: int, a: Attr): seq<Event>
  {
    match a
    case Prop(name, value, tail) => acc + [Say(ind, name + ": " + value + ";" + tail)]
    case OpacityOf(prop, t) => acc + [Out(ind, false, Opacity(prop, t))]
    case Width(Some(v)) => acc + [Say(ind, "stroke-width: "), Say(ind, IntToString(v) + ";\n")]
    case Width(None) => acc + [Say(ind, "stroke-width: "), Out(ind, false, ThinWidth)]
    case Dashes(elems) => DashLog(acc + [Say(ind, "stroke-dasharray:")], elems, 0) + [Say(ind, ";\n")]
  }

  /** A run of attributes, in order. */
  function AttrsLog(acc: seq<Event>, ind: int, attrs: seq<Attr>): seq<Event>
    decreases |attrs|
  {
    if attrs == [] then acc
    else AttrsLog(AttrLog(acc, ind, attrs[0]), ind, attrs[1..])
  }

  /** The dash list is written past the writer and holds no `<g>` tag. */
  lemma {:induction false} DashLogDepth(acc: seq<Event>, elems: seq<int>, i: nat)
    requires i <= |elems|
    ensures Depth(DashLog(acc, elems, i)) == Depth(acc)
    decreases |elems| - i
  {
    if i < |elems| {
      var e := Raw((if i > 0 then "," else "") + " " + IntToString(elems[i]));
      DepthAdd(acc, e);
      DashLogDepth(acc + [e], elems, i + 1);
    }
  }

  lemma PropDepth(acc: seq<Event>, ind: int, name: string, value: string, tail: string)
    ensures Depth(AttrLog(acc, ind, Prop(name, value, tail))) == Depth(acc)
  {
    var t := name + ": " + value + ";" + tail;
    assert t[|name|] == ':';
    PlainText(ind, false, t);
    DepthAdd(acc, Say(ind, t));
  }

  lemma WidthDepth(acc: seq<Event>, ind: int, width: Option<int>)
    ensures Depth(AttrLog(acc, ind, Width(width))) == Depth(acc)
  {
    var e := match width
      case Some(v) => Say(ind, IntToString(v) + ";\n")
      case None => Out(ind, false, ThinWidth);
    if width.Some? {
      var t := IntToString(width.value) + ";\n";
      assert t[|t| - 2] == ';';
      PlainText(ind, false, t);
    }
    DepthAdd(acc, Say(ind, "stroke-width: "));
    DepthAdd(acc + [Say(ind, "stroke-width: ")], e);
    assert AttrLog(acc, ind, Width(width)) == acc + [Say(ind, "stroke-width: ")] + [e];
  }

  lemma DashesDepth(acc: seq<Event>, ind: int, elems: seq<int>)
    ensures Depth(AttrLog(acc, ind, Dashes(elems))) == Depth(acc)
  {
    DepthAdd(acc, Say(ind, "stroke-dasharray:"));
    DashLogDepth(acc + [Say(ind, "stroke-dasharray:")], elems, 0);
    DepthAdd(DashLog(acc + [Say(ind, "stroke-dasharray:")], elems, 0), Say(ind, ";\n"));
  }

  /** An attribute opens and closes no `<g>` element. */
  lemma AttrLogDepth(acc: seq<Event>, ind: int, a: Attr)
    ensures Depth(AttrLog(acc, ind, a)) == Depth(acc)
  {
    match a
    case Prop(name, value, tail) => PropDepth(acc, ind, name, value, tail);
    case OpacityOf(prop, t) => DepthAdd(acc, Out(ind, false, Opacity(prop, t)));
    case Width(width) => WidthDepth(acc, ind, width);
    case Dashes(elems) => DashesDepth(acc, ind, elems);
  }

  /** A run of attributes opens and closes no `<g>` element. */
  lemma {:induction false} AttrsLogDepth(acc: seq<Event>, ind: int, attrs: seq<Attr>)
    ensures Depth(AttrsLog(acc, ind, attrs)) == Depth(acc)
    decreases |attrs|
  {
    if attrs != [] {
      AttrLogDepth(acc, ind, attrs[0]);
      AttrsLogDepth(AttrLog(acc, ind, attrs[0]), ind, attrs[1..]);
    }
  }

  lemma {:induction false} AttrsLogSnoc(acc: seq<Event>, ind: int, attrs: seq<Attr>, a: Attr)
    ensures AttrsLog(acc, ind, attrs + [a]) == AttrLog(AttrsLog(acc, ind, attrs), ind, a)
    decreases |attrs|
  {
    if attrs == [] {
      assert [a][1..] == [];
    } else {
      assert (attrs + [a])[1..] == attrs[1..] + [a];
      AttrsLogSnoc(AttrLog(acc, ind, attrs[0]), ind, attrs[1..], a);
    }
  }

  /** `xs` when `c` holds, nothing otherwise. */
  function When<T>(c: bool, xs: seq<T>): (r: seq<T>)
    ensures c ==> r == xs
    ensures !c ==> r == []
  {
    if c then xs else []
  }

  lemma AppendWhen<T>(s: seq<T>, c: bool, xs: seq<T>)
    ensures s + When(c, xs) == if c then s + xs else s
  {
    if !c {
      assert s + [] == s;
    }
  }

  /** Whether some attribute is the property `name`. */
  predicate HasProp(attrs: seq<Attr>, name: string)
  {
    exists i :: 0 <= i < |attrs| && attrs[i].Prop? && attrs[i].name == name
  }

  /** Whether an attribute ends the quoted `style` value. */
  predicate Closes(a: Attr)
  {
    a.Prop? && |a.tail| > 0 && a.tail[0] == '\''
  }

  /** The `style` value is closed by the last attribute and by no other. */
  predicate ClosedOnce(attrs: seq<Attr>)
  {
    |attrs| > 0 && Closes(attrs[|attrs| - 1])
    && forall i :: 0 <= i < |attrs| - 1 ==> !Closes(attrs[i])
  }

  lemma HasPropConcat(a: seq<Attr>, b: seq<Attr>, name: string)
    ensures HasProp(a + b, name) <==> HasProp(a, name) || HasProp(b, name)
  {
    if HasProp(a + b, name) {
      var i :| 0 <= i < |a + b| && (a + b)[i].Prop? && (a + b)[i].name == name;
      if i >= |a| {
        assert b[i - |a|] == (a + b)[i];
      } else {
        assert a[i] == (a + b)[i];
      }
    }
    if HasProp(a, name) {
      var i :| 0 <= i < |a| && a[i].Prop? && a[i].name == name;
      assert (a + b)[i] == a[i];
    }
    if HasProp(b, name) {
      var i :| 0 <= i < |b| && b[i].Prop? && b[i].name == name;
      assert (a + b)[|a| + i] == b[i];
    }
  }

  lemma HasPropOne(x: Attr, name: string)
    ensures HasProp([x], name) <==> x.Prop? && x.name == name
  {
    if x.Prop? && x.name == name {
      assert [x][0] == x;
    }
  }

  /** The dash pattern and offset, when the path is dashed. */
  function DashList(dash: Option<(seq<int>, int)>): (r: seq<Attr>)
    ensures dash.None? <==> r == []
  {
    match dash
    case None => []
    case Some((elems, offset)) => [Dashes(elems), Prop("stroke-dashoffset", IntToString(offset), "\n")]
  }

  /** The stroke attributes for an outline of transparency `otr`, colour
      `colour`, written line cap `cap`, join `join`, dash pattern `dash` and
      width `width` (0 for the thin line). */
  function StrokeList(otr: int, colour: string, cap: nat, join: nat,
                      dash: Option<(seq<int>, int)>, width: int): seq<Attr>
    requires cap < 4 && join < 4
  {
    if otr == 0 then [Prop("stroke", "none", "\n")]
    else
      [Prop("stroke", colour, "\n")]
      + When(otr != 255, [OpacityOf("stroke", otr)])
      + When(cap != 0, [Prop("stroke-linecap", CapNames[cap], "\n")])
      + When(join != 0, [Prop("stroke-linejoin", JoinNames[join], "\n")])
      + DashList(dash)
      + [Width(if width != 0 then Some(width) else None)]
  }

  /** Which stroke attributes are written, and that none of them closes the
      `style` value. */
  lemma StrokeListWritten(otr: int, colour: string, cap: nat, join: nat,
                          dash: Option<(seq<int>, int)>, width: int)
    requires cap < 4 && join < 4 && colour != "none"
    ensures
      var r := StrokeList(otr, colour, cap, join, dash, width);
      (HasProp(r, "stroke-linecap") <==> otr != 0 && cap != 0)
      && (otr != 0 && cap != 0 ==> Prop("stroke-linecap", CapNames[cap], "\n") in r)
      && (HasProp(r, "stroke-linejoin") <==> otr != 0 && join != 0)
      && (OpacityOf("stroke", otr) in r <==> otr != 0 && otr != 255)
      && (Prop("stroke", "none", "\n") in r <==> otr == 0)
      && forall i :: 0 <= i < |r| ==> !Closes(r[i])
  {
    StrokeListNames(otr, colour, cap, join, dash, width, "stroke-linecap");
    StrokeListNames(otr, colour, cap, join, dash, width, "stroke-linejoin");
    StrokeListEntries(otr, colour, cap, join, dash, width);
    StrokeListOpen(otr, colour, cap, join, dash, width);
  }

  /** The stroke list split into its optional parts. */
  lemma StrokeListParts(otr: int, colour: string, cap: nat, join: nat,
                        dash: Option<(seq<int>, int)>, width: int)
    requires cap < 4 && join < 4 && otr != 0
    ensures StrokeList(otr, colour, cap, join, dash, width)
            == [Prop("stroke", colour, "\n")]
               + When(otr != 255, [OpacityOf("stroke", otr)])
               + When(cap != 0, [Prop("stroke-linecap", CapNames[cap], "\n")])
               + When(join != 0, [Prop("stroke-linejoin", JoinNames[join], "\n")])
               + DashList(dash)
               + [Width(if width != 0 then Some(width) else None)]
  {
  }

  /** `stroke-linecap` and `stroke-linejoin` each come from their own
      optional part only. */
  lemma StrokeListNames(otr: int, colour: string, cap: nat, join: nat,
                        dash: Option<(seq<int>, int)>, width: int, n: string)
    requires cap < 4 && join < 4 && n in {"stroke-linecap", "stroke-linejoin"}
    ensures
      var r := StrokeList(otr, colour, cap, join, dash, width);
      HasProp(r, n) <==> otr != 0 && ((n == "stroke-linecap" && cap != 0) || (n == "stroke-linejoin" && join != 0))
  {
    if otr == 0 {
      HasPropOne(Prop("stroke", "none", "\n"), n);
    } else {
      var a0 := [Prop("stroke", colour, "\n")];
      var a1 := When(otr != 255, [OpacityOf("stroke", otr)]);
      var a2 := When(cap != 0, [Prop("stroke-linecap", CapNames[cap], "\n")]);
      var a3 := When(join != 0, [Prop("stroke-linejoin", JoinNames[join], "\n")]);
      var a4 := DashList(dash);
      var a5 := [Width(if width != 0 then Some(width) else None)];
      StrokeListParts(otr, colour, cap, join, dash, width);
      HasPropConcat(a0 + a1 + a2 + a3 + a4, a5, n);
      HasPropConcat(a0 + a1 + a2 + a3, a4, n);
      HasPropConcat(a0 + a1 + a2, a3, n);
      HasPropConcat(a0 + a1, a2, n);
      HasPropConcat(a0, a1, n);
      HasPropOne(a0[0], n);
      HasPropOne(a5[0], n);
      if otr != 255 {
        HasPropOne(a1[0], n);
      }
      if dash.Some? {
        HasPropConcat([a4[0]], [a4[1]], n);
        assert a4 == [a4[0]] + [a4[1]];
        HasPropOne(a4[0], n);
        HasPropOne(a4[1], n);
      }
      if cap != 0 {
        HasPropOne(a2[0], n);
      }
      if join != 0 {
        HasPropOne(a3[0], n);
      }
    }
  }

  /** Which entries the stroke list holds. */
  lemma StrokeListEntries(otr: int, colour: string, cap: nat, join: nat,
                          dash: Option<(seq<int>, int)>, width: int)
    requires cap < 4 && join < 4 && colour != "none"
    ensures
      var r := StrokeList(otr, colour, cap, join, dash, width);
      (otr != 0 && cap != 0 ==> Prop("stroke-linecap", CapNames[cap], "\n") in r)
      && (OpacityOf("stroke", otr) in r <==> otr != 0 && otr != 255)
      && (Prop("stroke", "none", "\n") in r <==> otr == 0)
  {
    if otr != 0 {
      StrokeListParts(otr, colour, cap, join, dash, width);
    }
  }

  /** No stroke attribute closes the `style` value. */
  lemma StrokeListOpen(otr: int, colour: string, cap: nat, join: nat,
                       dash: Option<(seq<int>, int)>, width: int)
    requires cap < 4 && join < 4
    ensures
      var r := StrokeList(otr, colour, cap, join, dash, width);
      forall i :: 0 <= i < |r| ==> !Closes(r[i])
  {
    if otr != 0 {
      StrokeListParts(otr, colour, cap, join, dash, width);
    }
  }

  /** The fill attributes for a fill of transparency `ftr`, colour `colour`
      and winding `wind`, the last of them ending with `close`. */
  function FillList(ftr: int, colour: string, wind: nat, close: string): seq<Attr>
    requires wind < 2
  {
    if ftr == 0 then [Prop("fill", "none", close)]
    else
      When(wind != 1, [Prop("fill-rule", WindNames[wind], "\n")])
      + When(ftr != 255, [OpacityOf("fill", ftr)])
      + [Prop("fill", colour, close)]
  }

  /** Which fill attributes are written, and that only the last closes the
      `style` value. */
  lemma FillListWritten(ftr: int, colour: string, wind: nat, close: string)
    requires wind < 2 && colour != "none" && |close| > 0 && close[0] == '\''
    ensures
      var r := FillList(ftr, colour, wind, close);
      (HasProp(r, "fill-rule") <==> ftr != 0 && wind != 1)
      && (OpacityOf("fill", ftr) in r <==> ftr != 0 && ftr != 255)
      && (Prop("fill", "none", close) in r <==> ftr == 0)
      && ClosedOnce(r)
  {
    var r := FillList(ftr, colour, wind, close);
    var n := "fill-rule";
    if ftr == 0 {
      HasPropOne(Prop("fill", "none", close), n);
    } else {
      var a0 := When(wind != 1, [Prop("fill-rule", WindNames[wind], "\n")]);
      var a1 := When(ftr != 255, [OpacityOf("fill", ftr)]);
      var a2 := [Prop("fill", colour, close)];
      assert r == a0 + a1 + a2;
      HasPropConcat(a0 + a1, a2, n);
      HasPropConcat(a0, a1, n);
      HasPropOne(a2[0], n);
      if wind != 1 {
        HasPropOne(a0[0], n);
      }
      if ftr != 255 {
        HasPropOne(a1[0], n);
      }
    }
  }

  /** The attributes of the separately drawn caps: filled in the outline
      colour, without a stroke, with the non-zero rule. */
  function CapList(otr: int, colour: string): seq<Attr>
  {
    [Prop("stroke", "none", "\n"), Prop("fill", colour, "\n")]
    + When(otr != 255, [OpacityOf("fill", otr)])
    + [Prop("fill-rule", "nonzero", "'\n")]
  }

  /** The stroke attributes of a path object. When the caps are divided no
      `stroke-linecap` is written. */
  function StrokeAttrs(w: seq<int>, d: int): seq<Attr>
  {
    var st := DecodeStyle(At(w, d + 9));
    var ow := At(w, d + 7);
    StrokeList(Transparency(ow), Colour(ow), if Divide(w, d) then 0 else st.startCap, st.join,
               if st.dashed then Some((DashElems(w, d), At(w, d + 10))) else None, At(w, d + 8))
  }

  /** The fill attributes of a path object; the last closes the `style`
      attribute. */
  function FillAttrs(w: seq<int>, d: int): seq<Attr>
  {
    var fw := At(w, d + 6);
    FillList(Transparency(fw), Colour(fw), DecodeStyle(At(w, d + 9)).wind, "'\n")
  }

  /** The attributes of a divided path's caps. */
  function CapAttrs(w: seq<int>, d: int): seq<Attr>
  {
    var ow := At(w, d + 7);
    CapList(Transparency(ow), Colour(ow))
  }

  /** `stroke-linecap` is written exactly when the outline is drawn, the caps
      are not divided and the start cap is not butt; its value names the
      start cap. `stroke-linejoin` is written exactly when the outline is
      drawn and the join is not mitred. */
  lemma StrokeAttrsWritten(w: seq<int>, d: int)
    ensures
      var st := DecodeStyle(At(w, d + 9));
      var otr := Transparency(At(w, d + 7));
      (HasProp(StrokeAttrs(w, d), "stroke-linecap") <==> otr != 0 && !Divide(w, d) && st.startCap != 0)
      && (otr != 0 && !Divide(w, d) && st.startCap != 0
          ==> Prop("stroke-linecap", CapNames[st.startCap], "\n") in StrokeAttrs(w, d))
      && (HasProp(StrokeAttrs(w, d), "stroke-linejoin") <==> otr != 0 && st.join != 0)
      && (OpacityOf("stroke", otr) in StrokeAttrs(w, d) <==> otr != 0 && otr != 255)
      && (Prop("stroke", "none", "\n") in StrokeAttrs(w, d) <==> otr == 0)
  {
    var st := DecodeStyle(At(w, d + 9));
    var ow := At(w, d + 7);
    assert |Colour(ow)| != |"none"|;
    StrokeListWritten(Transparency(ow), Colour(ow), if Divide(w, d) then 0 else st.startCap, st.join,
                      if st.dashed then Some((DashElems(w, d), At(w, d + 10))) else None, At(w, d + 8));
  }

  /** `fill-rule` is written exactly when the fill is drawn and the winding
      is not even-odd, the document's default; an opacity exactly when the
      fill is drawn but not opaque. */
  lemma FillAttrsWritten(w: seq<int>, d: int)
    ensures
      var st := DecodeStyle(At(w, d + 9));
      var ftr := Transparency(At(w, d + 6));
      (HasProp(FillAttrs(w, d), "fill-rule") <==> ftr != 0 && st.wind != 1)
      && (OpacityOf("fill", ftr) in FillAttrs(w, d) <==> ftr != 0 && ftr != 255)
      && (Prop("fill", "none", "'\n") in FillAttrs(w, d) <==> ftr == 0)
  {
    var fw := At(w, d + 6);
    assert |Colour(fw)| != |"none"|;
    FillListWritten(Transparency(fw), Colour(fw), DecodeStyle(At(w, d + 9)).wind, "'\n");
  }

  lemma ClosedOnceAfter(a: seq<Attr>, b: seq<Attr>)
    requires forall i :: 0 <= i < |a| ==> !Closes(a[i])
    requires ClosedOnce(b)
    ensures ClosedOnce(a + b)
  {
    forall i | 0 <= i < |a + b| - 1
      ensures !Closes((a + b)[i])
    {
      if i >= |a| {
        assert (a + b)[i] == b[i - |a|];
      } else {
        assert (a + b)[i] == a[i];
      }
    }
  }

  /** The `style` attribute of a path is closed exactly once, at its end:
      the stroke part never closes it and the fill part closes it last. */
  lemma PathStyleClosed(w: seq<int>, d: int)
    ensures ClosedOnce(StrokeAttrs(w, d) + FillAttrs(w, d))
  {
    var st := DecodeStyle(At(w, d + 9));
    var ow := At(w, d + 7);
    var fw := At(w, d + 6);
    var s := StrokeList(Transparency(ow), Colour(ow), if Divide(w, d) then 0 else st.startCap, st.join,
                        if st.dashed then Some((DashElems(w, d), At(w, d + 10))) else None, At(w, d + 8));
    var f := FillList(Transparency(fw), Colour(fw), st.wind, "'\n");
    assert |Colour(ow)| != |"none"| && |Colour(fw)| != |"none"|;
    StrokeListWritten(Transparency(ow), Colour(ow), if Divide(w, d) then 0 else st.startCap, st.join,
                      if st.dashed then Some((DashElems(w, d), At(w, d + 10))) else None, At(w, d + 8));
    FillListWritten(Transparency(fw), Colour(fw), st.wind, "'\n");
    ClosedOnceAfter(s, f);
  }

  /** The caps' start tag is closed once, by the `fill-rule` that ends it. */
  lemma CapStyleClosed(w: seq<int>, d: int)
    ensures ClosedOnce(CapAttrs(w, d))
  {
  }

  /** The cap-and-join block handed to the OS to thicken a divided path:
      byte 0 is the join, bytes 1 and 2 the (butt) caps, bytes 4-7 the mitre
      limit, bytes 8-11 the leading triangle's width and length and bytes
      12-15 the trailing one's, as 16-bit values. */
  function CapJoinBlock(st: Style): (caj: seq<nat>)
    requires ValidStyle(st)
    ensures |caj| == 16 && forall i :: 0 <= i < 16 ==> caj[i] < 256
  {
    var tw := st.triWidth * 16 % 256;
    var th := st.triWidth / 16;
    var lw := st.triLength * 16 % 256;
    var lh := st.triLength / 16;
    [st.join, 0, 0, 0, 0, 0, 2, 0, tw, th, lw, lh, tw, th, lw, lh]
  }

  /** The mitre limit is 2.0 in 16.16 fixed point, and each triangle field
      is the style word's sixteenths scaled to 1/256ths of the line width,
      the same at both ends. */
  lemma CapJoinFields(st: Style)
    requires ValidStyle(st)
    ensures
      var caj := CapJoinBlock(st);
      caj[0] == st.join
      && caj[4] + 0x100 * caj[5] + 0x1_0000 * caj[6] + 0x100_0000 * caj[7] == 0x2_0000
      && caj[8] + 256 * caj[9] == 16 * st.triWidth
      && caj[10] + 256 * caj[11] == 16 * st.triLength
      && caj[12..16] == caj[8..12]
  {
  }
}
