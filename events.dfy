/** What the converter hands to its output channels, in order.

    Every call of `output(ws, pretty, fmt, ...)` in the converter becomes one
    `Out` event carrying the indentation in effect and the formatted text; the
    writer that lays this text out is modelled in module `TextOut`. Values the
    converter prints with `%g` (floating point) are carried unformatted. Text
    written with `fprintf` straight to the output file, bypassing the writer,
    is a `Raw` event; a diagnostic on the error stream is a `Diag` event. */
module Events {

  import opened Words

  /** A point of a drawfile, in draw-units. */
  datatype Point = Point(x: int, y: int)

  /** The text of one `output` call. */
  datatype Piece =
    | Lit(text: string)
      /** `"<prop>-opacity: %g;\n"` of `t / 255.0` */
    | Opacity(prop: string, t: int)
      /** `"%g;\n"` of the context's thin-line width */
    | ThinWidth

  datatype Event =
    | Out(indent: int, pretty: bool, piece: Piece)
    | Raw(text: string)
    | Diag(text: string)
      /** A cap of kind 1 (round), 2 (square) or 3 (triangle) drawn by
          `plot_circ`, `plot_square` or `plot_tri` at `to`, pointing away
          from `from`; a point is absent where the source reads through a
          null window slot. */
    | CapShape(indent: int, kind: int, from: Option<Point>, to: Option<Point>)
      /** A sprite object handed to `convert_sprite`. */
    | SpriteObject(d: int)
      /** A text object handed to `convert_text`. */
    | TextObject(d: int)

  /** A plain `output(ws, false, ...)` of already formatted text. */
  function Say(indent: int, s: string): Event
  {
    Out(indent, false, Lit(s))
  }

  /** How an event changes the nesting of `<g>` elements: a start tag
      (`<g>` or the `<g style='` of painted text) opens one, `</g>` closes
      one. */
  function Delta(e: Event): int
  {
    match e
    case Out(_, _, Lit(t)) =>
      if t == "<g>\n" || t == "<g style='" then 1 else if t == "</g>\n" then -1 else 0
    case _ => 0
  }

  /** The number of `<g>` elements a run of events leaves open. */
  function Depth(log: seq<Event>): int
  {
    DepthOf(log, |log|)
  }

  /** The number of `<g>` elements the first `n` events leave open. */
  function DepthOf(log: seq<Event>, n: nat): int
    requires n <= |log|
  {
    if n == 0 then 0 else DepthOf(log, n - 1) + Delta(log[n - 1])
  }

  /** Events after the first `n` do not change the depth the first `n`
      leave. */
  lemma {:induction false} DepthOfPrefix(a: seq<Event>, b: seq<Event>, n: nat)
    requires n <= |a| && a <= b
    ensures DepthOf(a, n) == DepthOf(b, n)
  {
    if n > 0 {
      DepthOfPrefix(a, b, n - 1);
    }
  }

  lemma DepthAdd(log: seq<Event>, e: Event)
    ensures Depth(log + [e]) == Depth(log) + Delta(e)
  {
    DepthOfPrefix(log, log + [e], |log|);
  }

  lemma {:induction false} DepthConcat(a: seq<Event>, b: seq<Event>)
    ensures Depth(a + b) == Depth(a) + Depth(b)
    decreases |b|
  {
    if b != [] {
      var b' := b[..|b| - 1];
      assert a + b == (a + b') + [b[|b| - 1]];
      assert b == b' + [b[|b| - 1]];
      DepthAdd(a + b', b[|b| - 1]);
      DepthAdd(b', b[|b| - 1]);
      DepthConcat(a, b');
    } else {
      assert a + b == a;
    }
  }

  /** Text that starts with anything but `<`, or holds a `:` or `;`, is no
      `<g>` tag. */
  lemma PlainText(ind: int, pretty: bool, t: string)
    requires (|t| > 0 && t[0] != '<') || ':' in t || ';' in t
    ensures Delta(Out(ind, pretty, Lit(t))) == 0
  {
  }
}
