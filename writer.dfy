/** The column-tracking text writer (indent.c).

    Every piece of markup goes through `output`, which keeps `cpos`, the
    column the next character lands in (-1 at the start of a line whose
    indentation has not been written yet), breaks long lines at word
    boundaries when asked to, and writes indentation lazily. `vsprintf` is
    not modelled: each call receives the already-formatted text. */
module TextOut {

  import opened Words

  const LineWidth: int := 76

  /** The characters C's `isspace` accepts in the "C" locale. */
  predicate IsSpace(c: char)
  {
    c == ' ' || c == '\t' || c == '\n' || c == '\r' || c == '\U{000B}' || c == '\U{000C}'
  }

  predicate IsBlank(c: char)
  {
    c == ' ' || c == '\t'
  }

  /** Text `output` can consume: no NUL (the formatted text ends at the
      first one) and none of the white-space characters on which neither
      scanning loop advances (carriage return, vertical tab, form feed). */
  predicate Printable(s: string)
  {
    forall k :: 0 <= k < |s| ==> s[k] != '\r' && s[k] != '\U{000B}' && s[k] != '\U{000C}' && s[k] != '\0'
  }

  lemma PrintableSlice(s: string, i: int, j: int)
    requires Printable(s) && 0 <= i <= j <= |s|
    ensures Printable(s[i..j])
  {
  }

  // ---------------------------------------------------------------------
  // Indentation

  /** The indentation for `hm` columns: a tab per 8 columns, then spaces. */
  function IndentString(hm: int): string
    decreases if hm > 0 then hm else 0
  {
    if hm <= 0 then ""
    else if hm >= 8 then "\t" + IndentString(hm - 8)
    else " " + IndentString(hm - 1)
  }

  /** What `findent` writes: the indentation cut to `LineWidth` characters,
      the size of its local buffer. */
  function IndentPrefix(hm: int): string
  {
    var s := IndentString(hm);
    if |s| <= LineWidth then s else s[..LineWidth]
  }

  function Repeat(c: char, n: nat): (r: string)
    ensures |r| == n && forall k :: 0 <= k < n ==> r[k] == c
  {
    if n == 0 then "" else [c] + Repeat(c, n - 1)
  }

  /** The indentation is floor(hm/8) tabs followed by hm mod 8 spaces. */
  lemma {:induction false} IndentShape(hm: int)
    requires hm > 0
    ensures IndentString(hm) == Repeat('\t', hm / 8) + Repeat(' ', hm % 8)
    decreases hm
  {
    if hm >= 8 {
      if hm - 8 > 0 {
        IndentShape(hm - 8);
        assert Repeat('\t', hm / 8) == "\t" + Repeat('\t', (hm - 8) / 8);
      } else {
        assert hm == 8;
        assert Repeat('\t', 1) == "\t";
      }
    } else {
      if hm - 1 > 0 {
        IndentShape(hm - 1);
        assert Repeat(' ', hm % 8) == " " + Repeat(' ', (hm - 1) % 8);
      } else {
        assert hm == 1;
      }
    }
  }

  /** `findent`: fills a buffer of `LineWidth` characters with the
      indentation for `hm` columns and writes it; the result is what was
      written (its length is the count `fprintf` returns). */
  method Findent(hm: int) returns (s: string)
    ensures s == IndentPrefix(hm)
  {
    var sp := new char[LineWidth + 1];
    var ptr := 0;
    var left := hm;
    ghost var written := "";
    while left > 0 && ptr < LineWidth
      invariant 0 <= ptr <= LineWidth && |written| == ptr
      invariant sp[..ptr] == written
      invariant written + IndentString(left) == IndentString(hm)
      decreases left
    {
      var c := if left >= 8 then '\t' else ' ';
      var nextLeft := if left >= 8 then left - 8 else left - 1;
      assert IndentString(left) == [c] + IndentString(nextLeft);
      sp[ptr] := c;
      left := nextLeft;
      ptr := ptr + 1;
      Assoc(written, [c], IndentString(left));
      written := written + [c];
    }
    s := sp[..ptr];
    if left > 0 {
      assert |IndentString(left)| > 0;
      assert IndentString(hm)[..LineWidth] == s;
    } else {
      assert IndentString(left) == "";
      assert s == IndentString(hm);
    }
  }

  // ---------------------------------------------------------------------
  // Columns

  /** C's `%`, which truncates toward zero (Dafny's `%` is Euclidean). */
  function CRem(a: int, b: int): int
    requires b > 0
  {
    if a >= 0 then a % b else -((-a) % b)
  }

  /** The column after a blank at column `c`: a tab moves to the next
      multiple of 8, a space one column on. */
  function Advance(c: int, ch: char): int
  {
    if ch == '\t' then c + (8 - CRem(c, 8)) else c + 1
  }

  /** The column reached by writing `s` from column `c`; a newline returns
      to column 0. */
  function ColFrom(c: int, s: string): int
    decreases |s|
  {
    if s == [] then c
    else ColFrom(if s[0] == '\n' then 0 else Advance(c, s[0]), s[1..])
  }

  lemma {:induction false} ColAppend(c: int, a: string, b: string)
    ensures ColFrom(c, a + b) == ColFrom(ColFrom(c, a), b)
    decreases |a|
  {
    if a != [] {
      assert (a + b)[1..] == a[1..] + b;
      ColAppend(if a[0] == '\n' then 0 else Advance(c, a[0]), a[1..], b);
    } else {
      assert a + b == b;
    }
  }

  /** Indentation written at a tab stop ends `hm` columns further on. */
  lemma {:induction false} IndentColumns(c: int, hm: int)
    requires c >= 0 && c % 8 == 0
    ensures ColFrom(c, IndentString(hm)) == c + (if hm > 0 then hm else 0)
    decreases if hm > 0 then hm else 0
  {
    if hm >= 8 {
      assert ("\t" + IndentString(hm - 8))[1..] == IndentString(hm - 8);
      IndentColumns(c + 8, hm - 8);
    } else if hm > 0 {
      assert (" " + IndentString(hm - 1))[1..] == IndentString(hm - 1);
      SpacesColumns(c + 1, hm - 1);
    }
  }

  lemma {:induction false} SpacesColumns(c: int, hm: int)
    requires hm < 8
    ensures ColFrom(c, IndentString(hm)) == c + (if hm > 0 then hm else 0)
    decreases if hm > 0 then hm else 0
  {
    if hm > 0 {
      assert (" " + IndentString(hm - 1))[1..] == IndentString(hm - 1);
      SpacesColumns(c + 1, hm - 1);
    }
  }

  /** An indentation `findent` writes in full. */
  predicate FitsIndent(hm: int)
  {
    0 <= hm && |IndentString(hm)| <= LineWidth
  }

  // ---------------------------------------------------------------------
  // The `output` scanning loops

  /** The first scanning loop: skip blanks from `i`, advancing the column. */
  function SkipBlanks(s: string, i: int, c: int): (r: (int, int))
    requires 0 <= i <= |s|
    ensures i <= r.0 <= |s|
    decreases |s| - i
  {
    if i < |s| && IsBlank(s[i]) then SkipBlanks(s, i + 1, Advance(c, s[i])) else (i, c)
  }

  /** The second scanning loop: the end of the word starting at `j`. */
  function WordEnd(s: string, j: int): (k: int)
    requires 0 <= j <= |s|
    ensures j <= k <= |s|
    decreases |s| - j
  {
    if j < |s| && !IsSpace(s[j]) then WordEnd(s, j + 1) else j
  }

  /** What the writer has produced: the text written so far and `cpos`,
      the column the next character lands in (negative while a line start
      is pending). */
  datatype Pen = Pen(text: string, col: int)

  /** The writer's column bookkeeping agrees with what has been written:
      `col` is the column of the current line, and a pending line start
      means the text ends at column 0. */
  ghost predicate Synced(pen: Pen)
  {
    ColFrom(0, pen.text) == (if pen.col < 0 then 0 else pen.col)
  }

  /** The start of a round of `output`: a pending line start is resolved
      by writing the indentation. */
  function Pending(pen: Pen, indent: int): Pen
  {
    if pen.col < 0 then Pen(pen.text + IndentPrefix(indent), indent) else pen
  }

  /** One round of `output`'s outer loop from position `i`: the pen after
      it and the position where the scan stopped. */
  function Chunk(pen: Pen, s: string, i: int, indent: int, pretty: bool): (r: (Pen, int))
    requires 0 <= i < |s| && Printable(s)
    ensures i < r.1 <= |s|
  {
    var p0 := Pending(pen, indent);
    var jc := SkipBlanks(s, i, p0.col);
    if jc.0 < |s| && s[jc.0] == '\n' then
      (Pen(p0.text + "\n", -1), jc.0 + 1)
    else
      assert jc.0 == i ==> !IsSpace(s[i]);
      WordPiece(p0, s, i, jc.0, jc.1, indent, pretty)
  }

  /** The word case of a round: the blanks from `i` and the word from `j`
      are written as they are, unless pretty-printing and the word would
      end past the line width; then the blanks are dropped and the word
      starts a fresh line (no newline when the round started at column 0). */
  function WordPiece(p0: Pen, s: string, i: int, j: int, c1: int, indent: int, pretty: bool): (r: (Pen, int))
    requires 0 <= i <= j <= |s|
    ensures r.1 == WordEnd(s, j)
  {
    var k := WordEnd(s, j);
    var c2 := c1 + (k - j);
    if pretty && c2 > LineWidth then
      var npos := WrapColumn(k - j, indent);
      var t1 := if p0.col > 0 then p0.text + "\n" else p0.text;
      (Pen(t1 + IndentPrefix(npos) + s[j..k], npos + (k - j)), k)
    else
      (Pen(p0.text + s[i..k], c2), k)
  }

  /** The indentation of a wrapped word of `len` characters: the current
      indentation, or for a word longer than the line what is left of the
      line, which is never positive. */
  function WrapColumn(len: int, indent: int): int
  {
    if len > LineWidth then (if LineWidth - len < 0 then 0 else LineWidth - len) else indent
  }

  /** `output` of the formatted text from position `i` on: the pen after
      writing it. */
  function Emit(pen: Pen, s: string, i: int, indent: int, pretty: bool): Pen
    requires 0 <= i <= |s| && Printable(s)
    decreases |s| - i
  {
    if i == |s| then pen
    else
      var r := Chunk(pen, s, i, indent, pretty);
      Emit(r.0, s, r.1, indent, pretty)
  }

  /** Output only ever appends. */
  lemma {:induction false} EmitExtends(pen: Pen, s: string, i: int, indent: int, pretty: bool)
    requires 0 <= i <= |s| && Printable(s)
    ensures pen.text <= Emit(pen, s, i, indent, pretty).text
    decreases |s| - i
  {
    if i < |s| {
      var r := Chunk(pen, s, i, indent, pretty);
      EmitExtends(r.0, s, r.1, indent, pretty);
      ChunkExtends(pen, s, i, indent, pretty);
    }
  }

  lemma ChunkExtends(pen: Pen, s: string, i: int, indent: int, pretty: bool)
    requires 0 <= i < |s| && Printable(s)
    ensures pen.text <= Chunk(pen, s, i, indent, pretty).0.text
  {
    var p0 := Pending(pen, indent);
    assert pen.text <= p0.text;
  }

  /** Blanks are written as they are scanned, so the column `SkipBlanks`
      computes is the column reached by writing them. */
  lemma {:induction false} BlanksColumns(s: string, i: int, c: int)
    requires 0 <= i <= |s| && c >= 0
    ensures ColFrom(c, s[i..SkipBlanks(s, i, c).0]) == SkipBlanks(s, i, c).1
    ensures SkipBlanks(s, i, c).1 >= c
    decreases |s| - i
  {
    if i < |s| && IsBlank(s[i]) {
      var j := SkipBlanks(s, i, c).0;
      assert s[i..j][1..] == s[i + 1..j];
      BlanksColumns(s, i + 1, Advance(c, s[i]));
    }
  }

  lemma {:induction false} WordColumns(s: string, j: int, c: int)
    requires 0 <= j <= |s|
    ensures ColFrom(c, s[j..WordEnd(s, j)]) == c + (WordEnd(s, j) - j)
    decreases |s| - j
  {
    if j < |s| && !IsSpace(s[j]) {
      assert s[j..WordEnd(s, j)][1..] == s[j + 1..WordEnd(s, j)];
      WordColumns(s, j + 1, c + 1);
    }
  }

  /** `findent` is only ever asked for an indentation it writes in full. */
  lemma IndentPrefixColumns(hm: int)
    requires FitsIndent(hm)
    ensures IndentPrefix(hm) == IndentString(hm)
    ensures ColFrom(0, IndentString(hm)) == hm
  {
    IndentColumns(0, hm);
  }

  /** Writing the pending indentation brings the column to `indent`. */
  lemma PendingColumn(pen: Pen, indent: int)
    requires FitsIndent(indent) && Synced(pen)
    ensures ColFrom(0, Pending(pen, indent).text) == Pending(pen, indent).col >= 0
  {
    if pen.col < 0 {
      IndentPrefixColumns(indent);
      ColAppend(0, pen.text, IndentPrefix(indent));
      IndentColumns(0, indent);
    }
  }

  lemma WrappedColumn(head: string, s: string, j: int, k: int, c0: int, npos: int)
    requires 0 <= j <= k <= |s| && k == WordEnd(s, j) && ColFrom(0, head) == c0 >= 0 && FitsIndent(npos)
    ensures ColFrom(0, (if c0 > 0 then head + "\n" else head) + IndentPrefix(npos) + s[j..k]) == npos + (k - j)
  {
    var t1 := if c0 > 0 then head + "\n" else head;
    if c0 > 0 {
      ColAppend(0, head, "\n");
      assert ColFrom(c0, "\n") == ColFrom(0, "\n"[1..]);
      assert "\n"[1..] == "";
    }
    assert ColFrom(0, t1) == 0;
    IndentPrefixColumns(npos);
    ColAppend(0, t1, IndentPrefix(npos));
    ColAppend(0, t1 + IndentPrefix(npos), s[j..k]);
    WordColumns(s, j, npos);
  }

  lemma KeptColumn(head: string, s: string, i: int, j: int, k: int, c0: int, c1: int)
    requires 0 <= i <= j <= k <= |s| && k == WordEnd(s, j) && ColFrom(0, head) == c0
    requires ColFrom(c0, s[i..j]) == c1
    ensures ColFrom(0, head + s[i..k]) == c1 + (k - j)
  {
    WordColumns(s, j, c1);
    assert s[i..k] == s[i..j] + s[j..k];
    ColAppend(c0, s[i..j], s[j..k]);
    ColAppend(0, head, s[i..k]);
  }

  /** The word case keeps the column invariant. */
  lemma WordPieceColumn(p0: Pen, s: string, i: int, j: int, c1: int, indent: int, pretty: bool)
    requires 0 <= i <= j <= |s| && FitsIndent(indent) && ColFrom(0, p0.text) == p0.col >= 0
    requires SkipBlanks(s, i, p0.col) == (j, c1)
    ensures Synced(WordPiece(p0, s, i, j, c1, indent, pretty).0)
  {
    var k := WordEnd(s, j);
    BlanksColumns(s, i, p0.col);
    if pretty && c1 + (k - j) > LineWidth {
      WrappedColumn(p0.text, s, j, k, p0.col, WrapColumn(k - j, indent));
    } else {
      KeptColumn(p0.text, s, i, j, k, p0.col, c1);
    }
  }

  /** One round of `output` keeps the column invariant. */
  lemma ChunkColumn(pen: Pen, s: string, i: int, indent: int, pretty: bool)
    requires 0 <= i < |s| && Printable(s)
    requires FitsIndent(indent) && Synced(pen)
    ensures Synced(Chunk(pen, s, i, indent, pretty).0)
  {
    var p0 := Pending(pen, indent);
    PendingColumn(pen, indent);
    var jc := SkipBlanks(s, i, p0.col);
    if jc.0 < |s| && s[jc.0] == '\n' {
      ColAppend(0, p0.text, "\n");
      assert ColFrom(p0.col, "\n") == ColFrom(0, "\n"[1..]);
      assert "\n"[1..] == "";
    } else {
      WordPieceColumn(p0, s, i, jc.0, jc.1, indent, pretty);
    }
  }

  /** Column invariant: when the current indentation can be written in
      full, every call of `output` keeps `cpos` equal to the column of the
      text written so far. */
  lemma {:induction false} OutputKeepsColumn(pen: Pen, s: string, i: int, indent: int, pretty: bool)
    requires 0 <= i <= |s| && Printable(s)
    requires FitsIndent(indent) && Synced(pen)
    ensures Synced(Emit(pen, s, i, indent, pretty))
    decreases |s| - i
  {
    if i < |s| {
      var r := Chunk(pen, s, i, indent, pretty);
      ChunkColumn(pen, s, i, indent, pretty);
      OutputKeepsColumn(r.0, s, r.1, indent, pretty);
    }
  }

  /** A plain round mid-line writes the blanks and the word unchanged. */
  lemma PlainChunk(pen: Pen, s: string, i: int, indent: int)
    requires 0 <= i < |s| && Printable(s) && pen.col >= 0
    requires forall k :: i <= k < |s| ==> s[k] != '\n'
    ensures var r := Chunk(pen, s, i, indent, false);
            r.0 == Pen(pen.text + s[i..r.1], ColFrom(pen.col, s[i..r.1])) && r.0.col >= pen.col
  {
    var jc := SkipBlanks(s, i, pen.col);
    BlanksColumns(s, i, pen.col);
    var k := WordEnd(s, jc.0);
    WordColumns(s, jc.0, jc.1);
    assert s[i..k] == s[i..jc.0] + s[jc.0..k];
    ColAppend(pen.col, s[i..jc.0], s[jc.0..k]);
  }

  lemma SliceJoin(t: string, s: string, i: int, k: int)
    requires 0 <= i <= k <= |s|
    ensures t + s[i..k] + s[k..] == t + s[i..]
  {
    assert s[i..] == s[i..k] + s[k..];
  }

  /** Without pretty-printing, text without a newline written mid-line is
      copied exactly: nothing is inserted and no blank is dropped, and the
      column advances as the characters dictate. */
  lemma {:induction false} PlainOutputVerbatim(pen: Pen, s: string, i: int, indent: int)
    requires 0 <= i <= |s| && Printable(s) && pen.col >= 0
    requires forall k :: i <= k < |s| ==> s[k] != '\n'
    ensures Emit(pen, s, i, indent, false) == Pen(pen.text + s[i..], ColFrom(pen.col, s[i..]))
    ensures Emit(pen, s, i, indent, false).col >= pen.col
    decreases |s| - i
  {
    if i == |s| {
      assert s[i..] == [];
      assert pen.text + [] == pen.text;
    } else {
      var r := Chunk(pen, s, i, indent, false);
      var k := r.1;
      PlainChunk(pen, s, i, indent);
      PlainOutputVerbatim(r.0, s, k, indent);
      SliceJoin(pen.text, s, i, k);
      assert s[i..] == s[i..k] + s[k..];
      ColAppend(pen.col, s[i..k], s[k..]);
    }
  }

  /** A newline at the start of the text is written alone (after the
      pending indentation, if any) and leaves a line start pending. */
  lemma NewlineEndsLine(pen: Pen, s: string, indent: int, pretty: bool)
    requires |s| > 0 && s[0] == '\n' && Printable(s)
    ensures Chunk(pen, s, 0, indent, pretty) == (Pen(Pending(pen, indent).text + "\n", -1), 1)
  {
  }

  /** Every word of `s` is at most `n` characters long. */
  predicate ShortWords(s: string, n: int)
  {
    forall j :: 0 <= j <= |s| ==> WordEnd(s, j) - j <= n
  }

  /** The column the pen is in after each round of `output` from position
      `i`, in order: where each word (or trailing run of blanks) ends, or -1
      after a newline. The last one is the column the call ends in. */
  function RoundCols(pen: Pen, s: string, i: int, indent: int, pretty: bool): (cs: seq<int>)
    requires 0 <= i <= |s| && Printable(s)
    ensures |cs| <= |s| - i
    ensures i < |s| ==> |cs| > 0 && cs[|cs| - 1] == Emit(pen, s, i, indent, pretty).col
    decreases |s| - i
  {
    if i == |s| then []
    else
      var r := Chunk(pen, s, i, indent, pretty);
      [r.0.col] + RoundCols(r.0, s, r.1, indent, pretty)
  }

  /** Wrapping bound: with pretty-printing, and no word longer than the
      width left after the indentation, every round of the call ends at or
      before column `LineWidth`, whatever column it starts in; so does the
      call itself. */
  lemma {:induction false} PrettyStaysInWidth(pen: Pen, s: string, i: int, indent: int)
    requires 0 <= i < |s| && Printable(s) && 0 <= indent
    requires ShortWords(s, LineWidth - indent)
    ensures forall c :: c in RoundCols(pen, s, i, indent, true) ==> c <= LineWidth
    ensures Emit(pen, s, i, indent, true).col <= LineWidth
    decreases |s| - i
  {
    var r := Chunk(pen, s, i, indent, true);
    var p0 := Pending(pen, indent);
    var jc := SkipBlanks(s, i, p0.col);
    assert WordEnd(s, jc.0) - jc.0 <= LineWidth - indent;
    assert r.0.col <= LineWidth;
    var rest := RoundCols(r.0, s, r.1, indent, true);
    assert RoundCols(pen, s, i, indent, true) == [r.0.col] + rest;
    if r.1 < |s| {
      PrettyStaysInWidth(r.0, s, r.1, indent);
    } else {
      assert rest == [];
    }
  }

  // ---------------------------------------------------------------------
  // Escaping

  /** The flag bits of `output_esc` and the escape sets built from them. */
  const OutPretty: bv32 := 1
  const OutEscAmp: bv32 := 2
  const OutEscLt: bv32 := 4
  const OutEscGt: bv32 := 8
  const OutEscQuot: bv32 := 16
  const OutEscApos: bv32 := 32
  const OutEscCData: bv32 := OutEscGt | OutEscLt | OutEscAmp
  const OutEscSqStr: bv32 := OutEscApos | OutEscGt | OutEscLt | OutEscAmp
  const OutEscDqStr: bv32 := OutEscQuot | OutEscGt | OutEscLt | OutEscAmp
  const OutEscPcData: bv32 := OutEscApos | OutEscQuot | OutEscGt | OutEscLt | OutEscAmp

  /** The characters `output_esc` escapes for a flag word, in the order
      the source collects them. */
  function Special(flags: bv32): (sp: string)
    ensures forall c :: c in sp ==> c in "&<>\"'"
  {
    Flag(flags, OutEscAmp, '&') + Flag(flags, OutEscLt, '<') + Flag(flags, OutEscGt, '>')
    + Flag(flags, OutEscQuot, '"') + Flag(flags, OutEscApos, '\'')
  }

  function Flag(flags: bv32, bit: bv32, c: char): string
  {
    if flags & bit != 0 then [c] else ""
  }

  /** A character is escaped exactly when its flag is set. */
  lemma SpecialMembers(flags: bv32, c: char)
    ensures c in Special(flags) <==>
              || (c == '&' && flags & OutEscAmp != 0) || (c == '<' && flags & OutEscLt != 0)
              || (c == '>' && flags & OutEscGt != 0) || (c == '"' && flags & OutEscQuot != 0)
              || (c == '\'' && flags & OutEscApos != 0)
  {
  }

  /** The character-data set escapes exactly the ampersand and the angle brackets. */
  lemma CDataSet(c: char)
    ensures c in Special(OutEscCData) <==> c == '&' || c == '<' || c == '>'
  {
    SpecialMembers(OutEscCData, c);
  }

  /** The replacement text for an escaped character. */
  function Entity(c: char): string
  {
    match c
    case '&' => "&amp;"
    case '<' => "&lt;"
    case '>' => "&gt;"
    case '"' => "&quot;"
    case _ => "&apos;"
  }

  /** The escaped form of `s`: characters of `sp` replaced by their
      entities, every other character kept, in order. */
  function Escape(s: string, sp: string): string
  {
    if s == [] then "" else (if s[0] in sp then Entity(s[0]) else [s[0]]) + Escape(s[1..], sp)
  }

  /** Reads entities back into the characters they stand for. */
  function Unescape(t: string): string
    decreases |t|
  {
    if t == [] then ""
    else if |t| >= 5 && t[..5] == "&amp;" then "&" + Unescape(t[5..])
    else if |t| >= 4 && t[..4] == "&lt;" then "<" + Unescape(t[4..])
    else if |t| >= 4 && t[..4] == "&gt;" then ">" + Unescape(t[4..])
    else if |t| >= 6 && t[..6] == "&quot;" then "\"" + Unescape(t[6..])
    else if |t| >= 6 && t[..6] == "&apos;" then "'" + Unescape(t[6..])
    else [t[0]] + Unescape(t[1..])
  }

  lemma UnescapeEntity(c: char, rest: string)
    requires c in "&<>\"'"
    ensures Unescape(Entity(c) + rest) == [c] + Unescape(rest)
  {
    var t := Entity(c) + rest;
    var e := Entity(c);
    assert t[..|e|] == e && t[|e|..] == rest;
    if c == '<' || c == '>' {
      assert |t| >= 5 ==> t[..5][1] == e[1];
    } else if c == '"' {
      assert t[..5][1] == 'q';
      assert t[..4][1] == 'q';
    } else if c == '\'' {
      assert t[..5][1] == 'a' && t[..5][2] == 'p';
      assert t[..4][1] == 'a';
      assert t[..6][1] == 'a' && t[..6][2] == 'p';
    }
  }

  lemma UnescapePlain(c: char, rest: string)
    requires c != '&'
    ensures Unescape([c] + rest) == [c] + Unescape(rest)
  {
    var t := [c] + rest;
    assert t[0] == c;
    assert |t| >= 4 ==> t[..4][0] == c;
    assert |t| >= 5 ==> t[..5][0] == c;
    assert |t| >= 6 ==> t[..6][0] == c;
    assert t[1..] == rest;
  }

  /** Escaping loses nothing whenever the ampersand itself is escaped:
      reading the entities back gives the original text. */
  lemma {:induction false} EscapeRoundTrip(s: string, sp: string)
    requires '&' in sp && forall c :: c in sp ==> c in "&<>\"'"
    ensures Unescape(Escape(s, sp)) == s
    decreases |s|
  {
    if s != [] {
      EscapeRoundTrip(s[1..], sp);
      if s[0] in sp {
        UnescapeEntity(s[0], Escape(s[1..], sp));
      } else {
        UnescapePlain(s[0], Escape(s[1..], sp));
      }
    }
  }

  /** Escaped text contains no character of the escaped set except the
      ampersands that begin entities. */
  lemma {:induction false} EscapeRemovesSpecials(s: string, sp: string, k: int)
    requires forall c :: c in sp ==> c in "&<>\"'"
    requires 0 <= k < |Escape(s, sp)| && Escape(s, sp)[k] in sp
    ensures Escape(s, sp)[k] == '&'
    decreases |s|
  {
    var head := if s[0] in sp then Entity(s[0]) else [s[0]];
    if k >= |head| {
      assert Escape(s, sp)[k] == Escape(s[1..], sp)[k - |head|];
      EscapeRemovesSpecials(s[1..], sp, k - |head|);
    } else if s[0] in sp {
      assert Escape(s, sp)[k] == Entity(s[0])[k];
    }
  }

  /** `strcspn`: the end of the run of characters outside `sp` from `i`. */
  function SpanEnd(s: string, i: int, sp: string): (n: int)
    requires 0 <= i <= |s|
    ensures i <= n <= |s|
    decreases |s| - i
  {
    if i < |s| && s[i] !in sp then SpanEnd(s, i + 1, sp) else i
  }
  lemma {:induction false} SpanEndStops(s: string, i: int, sp: string)
    requires 0 <= i <= |s|
    ensures forall m :: i <= m < SpanEnd(s, i, sp) ==> s[m] !in sp
    ensures SpanEnd(s, i, sp) < |s| ==> s[SpanEnd(s, i, sp)] in sp
    decreases |s| - i
  {
    if i < |s| && s[i] !in sp {
      SpanEndStops(s, i + 1, sp);
    }
  }


  lemma {:induction false} EscapeAppend(a: string, b: string, sp: string)
    ensures Escape(a + b, sp) == Escape(a, sp) + Escape(b, sp)
    decreases |a|
  {
    if a != [] {
      assert (a + b)[1..] == a[1..] + b;
      EscapeAppend(a[1..], b, sp);
      Assoc(if a[0] in sp then Entity(a[0]) else [a[0]], Escape(a[1..], sp), Escape(b, sp));
    } else {
      assert a + b == b;
    }
  }

  lemma {:induction false} EscapePlain(s: string, sp: string)
    requires forall m :: 0 <= m < |s| ==> s[m] !in sp
    ensures Escape(s, sp) == s
    decreases |s|
  {
    if s != [] {
      EscapePlain(s[1..], sp);
    }
  }

  lemma EntityPrintable(c: char)
    ensures Printable(Entity(c))
  {
  }

  lemma EntityOneLine(c: char)
    ensures forall m :: 0 <= m < |Entity(c)| ==> Entity(c)[m] != '\n'
  {
  }

  /** One round of `output_esc`'s loop from position `i`: the run of
      characters outside `sp` handed to `output`, then, unless the text
      ended, the entity for the character that ends the run. */
  function EscRound(pen: Pen, s: string, i: int, sp: string, indent: int, pretty: bool): (r: (Pen, int))
    requires 0 <= i < |s| && Printable(s)
    ensures i < r.1 <= |s|
  {
    var n := SpanEnd(s, i, sp);
    PrintableSlice(s, i, n);
    var a := Emit(pen, s[i..n], 0, indent, pretty);
    if n == |s| then (a, n)
    else
      EntityPrintable(s[n]);
      (Emit(a, Entity(s[n]), 0, indent, pretty), n + 1)
  }

  /** The writing loop of `output_esc` from position `i`: the pen after it. */
  function EscEmit(pen: Pen, s: string, i: int, sp: string, indent: int, pretty: bool): Pen
    requires 0 <= i <= |s| && Printable(s)
    decreases |s| - i
  {
    if i == |s| then pen
    else
      var r := EscRound(pen, s, i, sp, indent, pretty);
      EscEmit(r.0, s, r.1, sp, indent, pretty)
  }

  /** `PlainOutputVerbatim` for a whole text. */
  lemma PlainWhole(pen: Pen, x: string, indent: int)
    requires Printable(x) && pen.col >= 0 && forall m :: 0 <= m < |x| ==> x[m] != '\n'
    ensures Emit(pen, x, 0, indent, false).text == pen.text + x
    ensures Emit(pen, x, 0, indent, false).col >= 0
  {
    PlainOutputVerbatim(pen, x, 0, indent);
    assert x[0..] == x;
  }

  /** Escaping splits at the end of a run of plain characters. */
  lemma EscapeSplit(s: string, i: int, n: int, sp: string)
    requires 0 <= i <= n < |s|
    requires forall m :: i <= m < n ==> s[m] !in sp
    requires s[n] in sp
    ensures Escape(s[i..], sp) == s[i..n] + Entity(s[n]) + Escape(s[n + 1..], sp)
  {
    EscapePlain(s[i..n], sp);
    assert s[i..] == s[i..n] + s[n..];
    EscapeAppend(s[i..n], s[n..], sp);
    assert s[n..][1..] == s[n + 1..];
    assert Escape(s[n..], sp) == Entity(s[n]) + Escape(s[n + 1..], sp);
    Assoc(s[i..n], Entity(s[n]), Escape(s[n + 1..], sp));
  }

  lemma Regroup(t: string, a: string, b: string, r: string)
    ensures t + a + b + r == t + (a + b + r)
  {
  }

  /** A plain round of escaped output, mid-line, writes the escaped form
      of the part of the text it consumes. */
  lemma PlainEscRound(pen: Pen, s: string, i: int, sp: string, indent: int)
    requires 0 <= i < |s| && Printable(s) && pen.col >= 0
    requires forall m :: 0 <= m < |s| ==> s[m] != '\n'
    ensures var r := EscRound(pen, s, i, sp, indent, false);
            r.0.col >= 0 && r.0.text + Escape(s[r.1..], sp) == pen.text + Escape(s[i..], sp)
  {
    var n := SpanEnd(s, i, sp);
    SpanEndStops(s, i, sp);
    PrintableSlice(s, i, n);
    PlainWhole(pen, s[i..n], indent);
    var a := Emit(pen, s[i..n], 0, indent, false);
    if n == |s| {
      assert s[i..n] == s[i..];
      EscapePlain(s[i..], sp);
      assert s[n..] == [];
    } else {
      EntityPrintable(s[n]);
      EntityOneLine(s[n]);
      PlainWhole(a, Entity(s[n]), indent);
      EscapeSplit(s, i, n, sp);
      Regroup(pen.text, s[i..n], Entity(s[n]), Escape(s[n + 1..], sp));
    }
  }

  /** Plain (not pretty) escaped output of a single-line text, mid-line,
      appends exactly the escaped text. */
  lemma {:induction false} PlainEscapedOutput(pen: Pen, s: string, i: int, sp: string, indent: int)
    requires 0 <= i <= |s| && Printable(s) && pen.col >= 0
    requires forall m :: 0 <= m < |s| ==> s[m] != '\n'
    ensures EscEmit(pen, s, i, sp, indent, false).text == pen.text + Escape(s[i..], sp)
    decreases |s| - i
  {
    if i == |s| {
      assert s[i..] == [];
      assert pen.text + "" == pen.text;
    } else {
      var r := EscRound(pen, s, i, sp, indent, false);
      PlainEscRound(pen, s, i, sp, indent);
      PlainEscapedOutput(r.0, s, r.1, sp, indent);
    }
  }

  // ---------------------------------------------------------------------
  // `cindent`

  /** `cindent`: the text written and the new remaining-space budget. */
  function CIndentText(sp: int, req: int, indent: int): (string, int)
  {
    if sp >= req then ("", sp)
    else if indent >= 36 then ("\n  ", LineWidth - 2)
    else ("\n" + IndentString(indent), LineWidth - indent)
  }

  /** After a break, the new budget is exactly the room left on the fresh
      line; without one, nothing is written and the budget is kept. */
  lemma CIndentBudget(sp: int, req: int, indent: int)
    requires 0 <= indent
    ensures sp >= req ==> CIndentText(sp, req, indent) == ("", sp)
    ensures sp < req ==> CIndentText(sp, req, indent).0[0] == '\n'
    ensures sp < req ==> ColFrom(0, CIndentText(sp, req, indent).0) + CIndentText(sp, req, indent).1 == LineWidth
  {
    if sp < req {
      if indent >= 36 {
        assert ColFrom(0, "\n  ") == 2;
      } else {
        var t := "\n" + IndentString(indent);
        assert t[1..] == IndentString(indent);
        IndentColumns(0, indent);
      }
    }
  }

  // ---------------------------------------------------------------------
  // The writer

  /** The writer half of `struct ws`: the text written so far, `cpos`,
      `indent`, and `output_esc`'s escape buffer (`buf`, `buflen`), which
      the source keeps in static variables. */
  class Writer {
    var out: string
    var cpos: int
    var indent: int
    var hasBuf: bool
    var bufLen: nat

    /** The state `process` starts from: nothing written, a line start
        pending, no indentation, no escape buffer yet. */
    constructor ()
      ensures out == "" && cpos == -1 && indent == 0 && !hasBuf && bufLen == 0
      ensures Synced(Pen(out, cpos))
    {
      out := "";
      cpos := -1;
      indent := 0;
      hasBuf := false;
      bufLen := 0;
    }

    /** `indent`: writes the full indentation for `indent` columns. */
    method Indent()
      modifies this`out
      ensures out == old(out) + IndentString(indent)
    {
      var hm := indent;
      ghost var written := "";
      while hm > 0
        invariant out == old(out) + written
        invariant written + IndentString(hm) == IndentString(indent)
        decreases hm
      {
        var c := if hm >= 8 then '\t' else ' ';
        var next := if hm >= 8 then hm - 8 else hm - 1;
        assert IndentString(hm) == [c] + IndentString(next);
        Assoc(written, [c], IndentString(next));
        Assoc(old(out), written, [c]);
        out := out + [c];
        written := written + [c];
        hm := next;
      }
    }

    /** `cindent`: breaks the line when the remaining space `sp` is less
        than `req`, and returns the new remaining space. */
    method CIndent(sp: int, req: int) returns (newSp: int)
      modifies this`out
      ensures out == old(out) + CIndentText(sp, req, indent).0
      ensures newSp == CIndentText(sp, req, indent).1
    {
      newSp := sp;
      if sp < req {
        if indent >= 36 {
          newSp := LineWidth - 2;
          out := out + "\n  ";
        } else {
          newSp := LineWidth - indent;
          out := out + "\n";
          Indent();
          assert out == old(out) + ("\n" + IndentString(indent));
        }
      }
    }

    /** `output` over already-formatted text: writes it with lazy
        indentation and optional word-wrapping; returns the number of
        characters written. */
    method Output(pretty: bool, line: string) returns (rc: int)
      requires Printable(line)
      modifies this`out, this`cpos
      ensures Pen(out, cpos) == Emit(Pen(old(out), old(cpos)), line, 0, indent, pretty)
      ensures rc == |out| - |old(out)|
    {
      var ptr := 0;
      rc := 0;
      while ptr < |line|
        invariant 0 <= ptr <= |line|
        invariant Emit(Pen(out, cpos), line, ptr, indent, pretty) == Emit(Pen(old(out), old(cpos)), line, 0, indent, pretty)
        invariant rc == |out| - |old(out)|
        decreases |line| - ptr
      {
        var n;
        ptr, n := OutputWord(pretty, line, ptr);
        rc := rc + n;
      }
    }

    /** One round of `output`'s loop from position `from`: the pending
        indentation, the blanks, then either a newline or a word, wrapped
        onto a fresh line when it would pass the line width. */
    method OutputWord(pretty: bool, line: string, from: int) returns (ptr: int, rc: int)
      requires Printable(line) && 0 <= from < |line|
      modifies this`out, this`cpos
      ensures (Pen(out, cpos), ptr) == Chunk(Pen(old(out), old(cpos)), line, from, indent, pretty)
      ensures rc == |out| - |old(out)|
    {
      rc := 0;
      if cpos < 0 {
        var f := Findent(indent);
        out := out + f;
        rc := rc + |f|;
        cpos := indent;
      }
      ghost var p0 := Pen(out, cpos);
      assert p0 == Pending(Pen(old(out), old(cpos)), indent);
      ptr := from;
      var opos := cpos;
      while ptr < |line| && IsBlank(line[ptr])
        invariant from <= ptr <= |line|
        invariant SkipBlanks(line, ptr, cpos) == SkipBlanks(line, from, opos)
        invariant out == p0.text
        decreases |line| - ptr
      {
        cpos := cpos + (if line[ptr] == '\t' then 8 - CRem(cpos, 8) else 1);
        ptr := ptr + 1;
      }
      if ptr < |line| && line[ptr] == '\n' {
        out := out + "\n";
        rc := rc + 1;
        cpos := -1;
        ptr := ptr + 1;
      } else {
        var n;
        ptr, n := PutWord(pretty, line, from, ptr, opos);
        rc := rc + n;
      }
    }

    /** The word case of a round of `output`, from the word start `j`
        reached from `from` (`opos` is the column the round started at). */
    method PutWord(pretty: bool, line: string, from: int, j: int, opos: int) returns (ptr: int, rc: int)
      requires 0 <= from <= j <= |line|
      modifies this`out, this`cpos
      ensures (Pen(out, cpos), ptr) == WordPiece(Pen(old(out), opos), line, from, j, old(cpos), indent, pretty)
      ensures rc == |out| - |old(out)|
    {
      rc := 0;
      ptr := j;
      var start := from;
      var mpos := cpos;
      while ptr < |line| && !IsSpace(line[ptr])
        invariant j <= ptr <= |line|
        invariant WordEnd(line, ptr) == WordEnd(line, j)
        invariant cpos == mpos + (ptr - j)
        invariant out == old(out)
        decreases |line| - ptr
      {
        cpos := cpos + 1;
        ptr := ptr + 1;
      }
      if pretty && cpos > LineWidth {
        if opos > 0 {
          out := out + "\n";
          rc := rc + 1;
        }
        var npos;
        if cpos - mpos > LineWidth {
          npos := LineWidth - (cpos - mpos);
          if npos < 0 {
            npos := 0;
          }
        } else {
          npos := indent;
        }
        assert npos == WrapColumn(ptr - j, indent);
        start := j;
        var f := Findent(npos);
        out := out + f;
        rc := rc + |f|;
        cpos := npos + (ptr - start);
      }
      out := out + line[start..ptr];
      rc := rc + (ptr - start);
    }

    /** `output_esc` over already-formatted text `s`: grows the escape
        buffer when `s` does not fit (failing with -1 when `allocOk` says
        the allocation fails), then writes `s` with the characters the
        flags select replaced by entities; returns the number of
        characters written. */
    method OutputEsc(flags: bv32, s: string, allocOk: bool) returns (rc: int)
      requires Printable(s)
      modifies this`out, this`cpos, this`hasBuf, this`bufLen
      ensures var grow := !old(hasBuf) || |s| >= old(bufLen);
              if grow && !allocOk then
                rc == -1 && out == old(out) && cpos == old(cpos)
                && hasBuf == old(hasBuf) && bufLen == old(bufLen)
              else
                && hasBuf && |s| < bufLen
                && bufLen == (if grow then |s| + 1 + old(bufLen) / 2 else old(bufLen))
                && Pen(out, cpos) == EscEmit(Pen(old(out), old(cpos)), s, 0, Special(flags), indent, flags & OutPretty != 0)
                && rc == |out| - |old(out)|
    {
      var special := Special(flags);
      var pretty := flags & OutPretty != 0;
      var n := |s|;
      if !hasBuf || n >= bufLen {
        var nbl := n + 1 + bufLen / 2;
        if !allocOk {
          return -1;
        }
        bufLen := nbl;
        hasBuf := true;
      }
      rc := WriteEscaped(pretty, s, special);
    }

    /** The writing loop of `output_esc`; returns the characters written. */
    method WriteEscaped(pretty: bool, s: string, special: string) returns (rc: int)
      requires Printable(s)
      modifies this`out, this`cpos
      ensures Pen(out, cpos) == EscEmit(Pen(old(out), old(cpos)), s, 0, special, indent, pretty)
      ensures rc == |out| - |old(out)|
    {
      rc := 0;
      var pos := 0;
      while pos < |s|
        invariant 0 <= pos <= |s|
        invariant EscEmit(Pen(out, cpos), s, pos, special, indent, pretty)
               == EscEmit(Pen(old(out), old(cpos)), s, 0, special, indent, pretty)
        invariant rc == |out| - |old(out)|
        decreases |s| - pos
      {
        var n;
        pos, n := EscapeRound(pretty, s, special, pos);
        rc := rc + n;
      }
    }

    /** One round of the writing loop of `output_esc`. */
    method EscapeRound(pretty: bool, s: string, special: string, from: int) returns (next: int, rc: int)
      requires 0 <= from < |s| && Printable(s)
      modifies this`out, this`cpos
      ensures (Pen(out, cpos), next) == EscRound(Pen(old(out), old(cpos)), s, from, special, indent, pretty)
      ensures rc == |out| - |old(out)|
    {
      var m := Cspn(s, from, special);
      PrintableSlice(s, from, m);
      rc := Output(pretty, s[from..m]);
      if m == |s| {
        next := m;
      } else {
        EntityPrintable(s[m]);
        var r2 := Output(pretty, Entity(s[m]));
        rc := rc + r2;
        next := m + 1;
      }
    }

    /** `strcspn`: the length of the run of characters outside `special`
        from `pos`, returned as the index where it ends. */
    method Cspn(s: string, pos: int, special: string) returns (m: int)
      requires 0 <= pos <= |s|
      ensures m == SpanEnd(s, pos, special)
    {
      m := pos;
      while m < |s| && s[m] !in special
        invariant pos <= m <= |s|
        invariant SpanEnd(s, m, special) == SpanEnd(s, pos, special)
        decreases |s| - m
      {
        m := m + 1;
      }
    }
  }
}
