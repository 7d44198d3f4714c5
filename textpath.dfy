/** Text converted to outlines, as `convert_text_path` (theconv.c) does it.
    The font manager paints the text into a buffer of outline records; each
    record has a ten-word header whose word 9 holds the winding (bit 6, 1 for
    even-odd) and a dashed flag (bit 7), the dash pattern when dashed, then
    path elements. The records are written as one `<g>` whose fill rule is
    the one most records use, with a per-path override for the others.
    Finding the font and painting are OS calls; their result, the record
    buffer or a failure, is an input. */
module TextPath {

  import opened Words
  import opened Events
  import opened PathData
  import opened PathStyle

  /** The walk over the records from word `pos` ends: every record up to the
      end of the buffer or a zero word has a positive length. (The source
      loops forever on a record of length zero or less.) */
  predicate RecordsOk(buf: seq<int>, pos: int)
    decreases |buf| - pos
  {
    pos >= |buf| || At(buf, pos) == 0 || (Len(buf, pos) > 0 && RecordsOk(buf, Next(buf, pos)))
  }

  /** `pos[9] >> 6 & 1`: 1 when the record is filled even-odd. */
  function WindBit(buf: seq<int>, pos: int): (b: nat)
    ensures b < 2
  {
    U32(At(buf, pos + 9)) / 64 % 2
  }

  /** The winding of each record, in order. */
  function Winds(buf: seq<int>, pos: int): (r: seq<nat>)
    requires RecordsOk(buf, pos)
    ensures forall i :: 0 <= i < |r| ==> r[i] < 2
    decreases |buf| - pos
  {
    if pos >= |buf| || At(buf, pos) == 0 then []
    else [WindBit(buf, pos)] + Winds(buf, Next(buf, pos))
  }

  /** How many entries of `s` are `b`. */
  function Count(s: seq<nat>, b: nat): (n: nat)
    ensures n <= |s|
  {
    if s == [] then 0 else (if s[0] == b then 1 else 0) + Count(s[1..], b)
  }

  /** Each record votes exactly once, for non-zero or for even-odd. */
  lemma {:induction false} VotesAddUp(s: seq<nat>)
    requires forall i :: 0 <= i < |s| ==> s[i] < 2
    ensures Count(s, 0) + Count(s, 1) == |s|
  {
    if s != [] {
      VotesAddUp(s[1..]);
    }
  }

  /** The group's fill rule: even-odd (1) only when strictly more records
      are even-odd than non-zero; a tie gives non-zero (0). */
  function Majority(s: seq<nat>): (rule: nat)
    ensures rule == 1 <==> Count(s, 1) > Count(s, 0)
    ensures rule == 0 <==> Count(s, 1) <= Count(s, 0)
  {
    if Count(s, 1) > Count(s, 0) then 1 else 0
  }

  lemma {:induction false} CountAppend(s: seq<nat>, b: nat, x: nat)
    ensures Count(s + [x], b) == Count(s, b) + (if x == b then 1 else 0)
    decreases |s|
  {
    if s == [] {
      assert [x][1..] == [];
    } else {
      assert (s + [x])[1..] == s[1..] + [x];
      CountAppend(s[1..], b, x);
    }
  }

  /** The vote of `convert_text_path`: counts the records of each winding
      and picks the majority. */
  method Vote(buf: seq<int>) returns (rule: nat)
    requires RecordsOk(buf, 0)
    ensures rule == Majority(Winds(buf, 0))
    ensures rule < 2
  {
    var count := new nat[2](_ => 0);
    var pos := 0;
    ghost var seen: seq<nat> := [];
    while pos < |buf| && At(buf, pos) != 0
      invariant RecordsOk(buf, pos)
      invariant seen + Winds(buf, pos) == Winds(buf, 0)
      invariant count[0] == Count(seen, 0) && count[1] == Count(seen, 1)
      decreases |buf| - pos
    {
      var b := WindBit(buf, pos);
      CountAppend(seen, 0, b);
      CountAppend(seen, 1, b);
      count[b] := count[b] + 1;
      assert Winds(buf, pos) == [b] + Winds(buf, Next(buf, pos));
      Assoc(seen, [b], Winds(buf, Next(buf, pos)));
      seen := seen + [b];
      pos := Next(buf, pos);
    }
    assert seen == Winds(buf, 0);
    rule := if count[1] > count[0] then 1 else 0;
  }

  /** Where a record's path elements start: after the ten header words, and
      after the dash pattern when the record is dashed. */
  function RecordPathStart(buf: seq<int>, pos: int): int
  {
    pos + 10 + (if U32(At(buf, pos + 9)) / 128 % 2 == 1 then At(buf, pos + 11) + 2 else 0)
  }

  /** Where a record's path elements end: one word before the next record. */
  function RecordPathEnd(buf: seq<int>, pos: int): int
  {
    Next(buf, pos) - 1
  }

  /** The records from `pos` on, each as a `<path>` at indentation `ind`
      with a fill-rule override when its winding is not `rule`. */
  function RecordsLog(acc: seq<Event>, ind: int, buf: seq<int>, pos: int, rule: nat): seq<Event>
    requires RecordsOk(buf, pos) && rule < 2
    decreases |buf| - pos
  {
    if pos >= |buf| || At(buf, pos) == 0 then acc
    else RecordsLog(RecordLog(acc, ind, buf, pos, rule), ind, buf, Next(buf, pos), rule)
  }

  /** The `<path>` of the record at `pos`. Its path data ends one word
      before the next record. */
  function RecordLog(acc: seq<Event>, ind: int, buf: seq<int>, pos: int, rule: nat): seq<Event>
    requires rule < 2
  {
    var a := RecordHead(acc, ind, buf, pos, rule);
    PathLog(a, ind + 9, buf, RecordPathStart(buf, pos), RecordPathEnd(buf, pos), 0, 0) + [Say(ind + 9, "' />\n")]
  }

  /** The steps of one outline record's `<path>`, in order. */
  lemma RecordSteps(acc: seq<Event>, ind: int, buf: seq<int>, pos: int, rule: nat, l1: seq<Event>, l2: seq<Event>)
    requires rule < 2
    requires l1 == RecordHead(acc, ind, buf, pos, rule)
    requires l2 == PathLog(l1, ind + 9, buf, RecordPathStart(buf, pos), RecordPathEnd(buf, pos), 0, 0)
    ensures RecordLog(acc, ind, buf, pos, rule) == l2 + [Say(ind + 9, "' />\n")]
  {
  }

  /** The start of a record's `<path>`, up to its path data. */
  function RecordHead(acc: seq<Event>, ind: int, buf: seq<int>, pos: int, rule: nat): seq<Event>
    requires rule < 2
  {
    var r := WindBit(buf, pos);
    var a := acc + [Say(ind, "<path ")];
    var a := if r != rule then a + [Say(ind + 6, "style='fill-rule: " + WindNames[r] + ";'\n")] else a;
    a + [Say(ind + 6, "d='")]
  }

  /** The group's `style` attributes as the source writes them. A fill that
      is not drawn is written as `fill: none;` without the quote and `>`
      that end the start tag. */
  function GroupAttrsAsWritten(ftr: int, colour: string, rule: nat): seq<Attr>
    requires rule < 2
  {
    if ftr == 0 then [Prop("stroke", "none", "\n"), Prop("fill", "none", "\n")]
    else
      [Prop("stroke", "none", "\n")]
      + When(ftr != 255, [OpacityOf("fill", ftr)])
      + When(rule != 1, [Prop("fill-rule", WindNames[rule], "\n")])
      + [Prop("fill", colour, "'>\n")]
  }

  /** With a fill that is not drawn, nothing closes the group's `style`
      attribute, so the following `<path` lands inside its value. */
  lemma GroupUnclosedWithoutFill(colour: string, rule: nat)
    requires rule < 2
    ensures GroupAttrsAsWritten(0, colour, rule) == [Prop("stroke", "none", "\n"), Prop("fill", "none", "\n")]
    ensures forall a :: a in GroupAttrsAsWritten(0, colour, rule) ==> !Closes(a)
    ensures !ClosedOnce(GroupAttrsAsWritten(0, colour, rule))
  {
  }

  /** The group's `style` attributes, with the start tag closed after `fill:
      none;` as it is after a fill colour. */
  function GroupAttrs(ftr: int, colour: string, rule: nat): seq<Attr>
    requires rule < 2
  {
    if ftr == 0 then [Prop("stroke", "none", "\n"), Prop("fill", "none", "'>\n")]
    else
      [Prop("stroke", "none", "\n")]
      + When(ftr != 255, [OpacityOf("fill", ftr)])
      + When(rule != 1, [Prop("fill-rule", WindNames[rule], "\n")])
      + [Prop("fill", colour, "'>\n")]
  }

  /** The group's start tag is closed exactly once, at the end, whatever the
      fill; and the fill rule is written exactly when the majority is
      non-zero and the fill is drawn. */
  lemma GroupAttrsClosed(ftr: int, colour: string, rule: nat)
    requires rule < 2 && colour != "none"
    ensures ClosedOnce(GroupAttrs(ftr, colour, rule))
    ensures HasProp(GroupAttrs(ftr, colour, rule), "fill-rule") <==> ftr != 0 && rule == 0
    ensures Prop("fill", "none", "'>\n") in GroupAttrs(ftr, colour, rule) <==> ftr == 0
  {
    var g := GroupAttrs(ftr, colour, rule);
    var n := "fill-rule";
    var a0 := [Prop("stroke", "none", "\n")];
    HasPropOne(a0[0], n);
    if ftr == 0 {
      assert g == a0 + [Prop("fill", "none", "'>\n")];
      HasPropConcat(a0, [Prop("fill", "none", "'>\n")], n);
      HasPropOne(Prop("fill", "none", "'>\n"), n);
    } else {
      var a1 := When(ftr != 255, [OpacityOf("fill", ftr)]);
      var a2 := When(rule != 1, [Prop("fill-rule", WindNames[rule], "\n")]);
      var a3 := [Prop("fill", colour, "'>\n")];
      assert g == a0 + (a1 + a2 + a3) by {
        Assoc(a0, a1 + a2, a3);
        Assoc(a0, a1, a2);
      }
      HasPropConcat(a0, a1 + a2 + a3, n);
      HasPropConcat(a1 + a2, a3, n);
      HasPropConcat(a1, a2, n);
      HasPropOne(a3[0], n);
      if ftr != 255 {
        HasPropOne(a1[0], n);
      }
      if rule != 1 {
        HasPropOne(a2[0], n);
      }
      assert Prop("fill", "none", "'>\n") != a3[0];
    }
  }

  /** A record buffer whose walk ends; the font manager's output is of this
      type. */
  type Outline = buf: seq<int> | RecordsOk(buf, 0) witness []

  /** The steps of a painted text object, in order. */
  lemma TextGroupSteps(acc: seq<Event>, ind: int, buf: Outline, fw: int, l1: seq<Event>, l2: seq<Event>)
    requires l1 == AttrsLog(acc + [Say(ind, "<g style='")], ind + 10,
                            GroupAttrs(Transparency(fw), Colour(fw), Majority(Winds(buf, 0))))
    requires l2 == RecordsLog(l1, ind + 2, buf, 0, Majority(Winds(buf, 0)))
    ensures TextGroupLog(acc, ind, buf, fw) == l2 + [Say(ind, "</g>\n")]
  {
  }

  /** Where the text object's own fields start: a transformed text object
      (tag 12) has seven more header words. */
  function TextOffset(w: seq<int>, d: int): int
  {
    if At(w, d) == 12 then 7 else 0
  }

  /** Everything `convert_text_path` writes for the text object at `d`, at
      indentation `ind`, given the font manager's outline records or its
      failure. */
  function TextPathLog(acc: seq<Event>, ind: int, w: seq<int>, d: int, outline: Option<Outline>): seq<Event>
  {
    match outline
    case None => acc
    case Some(buf) => TextGroupLog(acc, ind, buf, TextFill(w, d))
  }

  /** The fill colour word of the text object at `d`. */
  function TextFill(w: seq<int>, d: int): int
  {
    At(w, d + 6 + TextOffset(w, d))
  }

  /** The group written for the records `buf`, filled as the font word `fw`
      says: its start tag, one `<path>` per record, its end tag. */
  function TextGroupLog(acc: seq<Event>, ind: int, buf: Outline, fw: int): seq<Event>
  {
    var rule := Majority(Winds(buf, 0));
    var a := AttrsLog(acc + [Say(ind, "<g style='")], ind + 10, GroupAttrs(Transparency(fw), Colour(fw), rule));
    RecordsLog(a, ind + 2, buf, 0, rule) + [Say(ind, "</g>\n")]
  }

  lemma RecordHeadDepth(acc: seq<Event>, ind: int, buf: seq<int>, pos: int, rule: nat)
    requires rule < 2
    ensures Depth(RecordHead(acc, ind, buf, pos, rule)) == Depth(acc)
  {
    var r := WindBit(buf, pos);
    var a1 := acc + [Say(ind, "<path ")];
    DepthAdd(acc, Say(ind, "<path "));
    var t := "style='fill-rule: " + WindNames[r] + ";'\n";
    assert t[0] == 's';
    PlainText(ind + 6, false, t);
    DepthAdd(a1, Say(ind + 6, t));
    var a2 := if r != rule then a1 + [Say(ind + 6, t)] else a1;
    DepthAdd(a2, Say(ind + 6, "d='"));
  }

  lemma PathTagDepth(a: seq<Event>, ind: int, buf: seq<int>, d: int, e: int)
    ensures Depth(PathLog(a, ind, buf, d, e, 0, 0) + [Say(ind, "' />\n")]) == Depth(a)
  {
    PathLogDepth(a, ind, buf, d, e, 0, 0);
    DepthAdd(PathLog(a, ind, buf, d, e, 0, 0), Say(ind, "' />\n"));
  }

  lemma RecordLogDepth(acc: seq<Event>, ind: int, buf: seq<int>, pos: int, rule: nat)
    requires rule < 2
    ensures Depth(RecordLog(acc, ind, buf, pos, rule)) == Depth(acc)
  {
    RecordHeadDepth(acc, ind, buf, pos, rule);
    PathTagDepth(RecordHead(acc, ind, buf, pos, rule), ind + 9, buf, RecordPathStart(buf, pos), RecordPathEnd(buf, pos));
  }

  /** The records' `<path>` elements open and close no `<g>` element. */
  lemma {:induction false} RecordsLogDepth(acc: seq<Event>, ind: int, buf: seq<int>, pos: int, rule: nat)
    requires RecordsOk(buf, pos) && rule < 2
    ensures Depth(RecordsLog(acc, ind, buf, pos, rule)) == Depth(acc)
    decreases |buf| - pos
  {
    if pos < |buf| && At(buf, pos) != 0 {
      RecordLogDepth(acc, ind, buf, pos, rule);
      RecordsLogDepth(RecordLog(acc, ind, buf, pos, rule), ind, buf, Next(buf, pos), rule);
    }
  }

  /** Painted text is one `<g>` element, opened and closed. */
  lemma TextGroupDepth(acc: seq<Event>, ind: int, buf: Outline, fw: int)
    ensures Depth(TextGroupLog(acc, ind, buf, fw)) == Depth(acc)
  {
    var rule := Majority(Winds(buf, 0));
    var a0 := acc + [Say(ind, "<g style='")];
    DepthAdd(acc, Say(ind, "<g style='"));
    var a1 := AttrsLog(a0, ind + 10, GroupAttrs(Transparency(fw), Colour(fw), rule));
    AttrsLogDepth(a0, ind + 10, GroupAttrs(Transparency(fw), Colour(fw), rule));
    var a2 := RecordsLog(a1, ind + 2, buf, 0, rule);
    RecordsLogDepth(a1, ind + 2, buf, 0, rule);
    DepthAdd(a2, Say(ind, "</g>\n"));
  }
}
