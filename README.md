# Draw2SVG converter core, modelled in Dafny

Draw2SVG translates a RISC OS drawfile into an SVG document. This project
models the core of that translation:

- **The object walk.** `convert_list` steps over the drawfile objects by their
  length words. `convert` dispatches each object on its tag: font table, text,
  path, sprite or group. `convert_group` wraps a group's children in `<g>`.
- **The path converter.** `convert_path` decodes the packed style word and
  writes the `<path style='…' d='…' />` element. `plot_path` writes the path
  data as relative commands. When a path has triangle caps, or caps that
  differ at its two ends, `convert_path` "divides" it: a second `<path>` holds
  the caps, built by `plot_caps` walking the thickened outline and using the
  `record` window of the last two points.
- **Text as outlines.** `convert_text_path` writes a text object as the
  outline records the font manager returns. The group takes the majority fill
  rule of the records; a record whose own rule differs overrides it.
- **`fnmax`.** The signed extreme that gives the corners of a sprite's
  bounding box.
- **The text writer** (`indent.c`). `findent`, `indent` and `cindent` write
  indentation. `output` lays text out at the current indentation, wrapping
  before column 76. `output_esc` does the same after replacing the XML special
  characters that a flag word selects with their entities.
- **Units** (`units.c`). The draw-unit conversion factors, the unit-suffix
  table, `choose_units` and `measure`.

A drawfile is a sequence of 32-bit words (`seq<int>`, read as 0 outside the
buffer). Everything the converter writes is recorded in order as a list of
events (module `Events`). Each `output` call is an `Out` event carrying its
indentation and text. A direct `fprintf` is a `Raw` event, a diagnostic is a
`Diag` event, and a cap shape or a sprite or text object handed to its own
converter is a single abstract event. The converter is a class (`Converter`)
whose `log`, `indent` and `font` fields change as in the source's `struct
ws`. Each method is proved against a specification function of the drawfile
words. The writer is a class (`Writer`) holding the output text, the cursor
column and the escape buffer. Its methods are proved against functions of the
text (`Emit`, `EscEmit`).

Modules: `Words` (words, bytes, C strings), `Units`, `TextOut` (`indent.c`),
`Events`, `PathData` (path elements, `plot_path`), `Caps` (`record`,
`plot_caps`), `PathStyle` (style word, attribute lists), `TextPath` (fill-rule
vote, outline records), `Convert` (the converter class), `Extremes` (`fnmax`).

Where the program's documented behaviour and its code differ, the model
follows the code. The one exception is the source defect under "## Findings":
the converter writes the corrected start tag for a text group with a
transparent fill (see the `Convert.Converter.GroupStyle` line under "## Left
out"). The cases where the model follows the code are:

- **Divided path body.** When a path is divided, the main `<path>` keeps the
  stroke colour, opacity, join, dash and width. Only `stroke-linecap` is
  omitted (`src/obj/theconv.c:703-705`). It is not reduced to a fill-only
  shape.
- **Where the majority vote applies.** The vote exists only for text
  converted to outlines (`src/obj/theconv.c:136-145`). The caps path always
  writes `fill-rule: nonzero` (`src/obj/theconv.c:814`).
- **A curve in a thickened outline.** The code writes the diagnostic, skips
  the seven words and goes on with the caps (`src/obj/theconv.c:393-396`). It
  does not abandon cap synthesis for that path.
- **Where a subpath ends.** In the cap walk, codes 0, 2, 3 and 7 end a
  subpath, and code 4 only re-arms the start cap
  (`src/obj/theconv.c:365-392`).

## Model

| member | source | states |
|---|---|---|
| Words.U32 | src/obj/theconv.c:656-660 | a word read as unsigned 32 bits lies in [0, 2^32); a non-negative word is itself and a negative one gains 2^32 |
| Words.ByteAt | src/obj/theconv.c:835-847 | a byte of the word buffer, read little-endian, is below 256 |
| Units.Factor | src/obj/units.c:30-33 | every unit's factor to draw units is positive |
| Units.FromDraw | src/obj/units.c:35-39 | converting draw units to a unit divides by its factor: the result times the factor is the input |
| Units.ToDraw | src/obj/units.c:41-45 | converting a unit to draw units is undone by the opposite conversion |
| Units.UnitRoundTrip | src/obj/units.c:35-45 | a value converted from draw units and back is unchanged, for every unit |
| Units.FactorFacts | src/obj/units.c:30-53 | an inch is 46080 draw units, a centimetre is ten millimetres, the empty suffix selects draw units, and draw-unit conversion is the identity |
| Units.FindFrom | src/obj/units.c:55-63 | the linear search returns the first table index at or after `i` whose suffix matches, or none when no later entry matches |
| Units.ChooseUnits | src/obj/units.c:55-63 | a unit is found exactly when some table entry has the suffix, and the one found is a table entry with that suffix |
| Units.ChooseUnitsFindsEachEntry | src/obj/units.c:47-63 | looking up the suffix of any table entry returns that entry, so every suffix in the table is distinct from the earlier ones |
| Units.Measure | src/obj/units.c:65-83 | returns 0 or -1; a bare number is taken as draw units; a number with a suffix succeeds exactly when the suffix is known, and the result converts back to the number; on failure the output value is untouched |
| TextOut.IndentShape | src/obj/indent.c:36-42 | the indentation for `hm` columns is floor(hm/8) tabs followed by hm mod 8 spaces |
| TextOut.Findent | src/obj/indent.c:34-45 | writes the indentation for `hm` columns, cut to the 76-character buffer |
| TextOut.IndentColumns | src/obj/indent.c:47-57 | from a tab stop, the indentation advances the column by exactly `hm` |
| TextOut.Writer.Indent | src/obj/indent.c:47-57 | appends the indentation for the current indent to the output |
| TextOut.CIndentBudget | src/obj/indent.c:59-71 | when the space left covers the request nothing is written; otherwise a newline starts the text and the column reached plus the new budget is the line width |
| TextOut.Writer.CIndent | src/obj/indent.c:59-71 | appends the line break and indentation `cindent` writes and returns the new space budget |
| TextOut.Writer.Output | src/obj/indent.c:73-126 | the new text and column are those of the layout function `Emit`, and the return value is the number of characters written |
| TextOut.Writer.OutputWord | src/obj/indent.c:89-122 | one round of the output loop (pending indentation, blanks, then one word or a newline) matches `Chunk` |
| TextOut.Writer.PutWord | src/obj/indent.c:108-123 | a word is written at the current column, or on a fresh line at the indentation when pretty printing and the word would pass column 76 |
| TextOut.Chunk | src/obj/indent.c:89-123 | each round consumes at least one character |
| TextOut.SkipBlanks | src/obj/indent.c:94-105 | the blank scan stops within the text |
| TextOut.BlanksColumns | src/obj/indent.c:94-105 | the column the blank scan computes is the column the skipped blanks reach, and it never decreases |
| TextOut.WordColumns | src/obj/indent.c:108-113 | a word advances the column by its length |
| TextOut.OutputKeepsColumn | src/obj/indent.c:73-126 | after any call the tracked cursor column is the column the whole output text ends in |
| TextOut.EmitExtends | src/obj/indent.c:73-126 | output only appends: the earlier text is a prefix of the new text |
| TextOut.PlainOutputVerbatim | src/obj/indent.c:73-126 | without pretty printing and without newlines, the text is copied unchanged |
| TextOut.NewlineEndsLine | src/obj/indent.c:89-105 | a newline writes any pending indentation, then the newline, and resets the column to "start of line" (-1) |
| TextOut.RoundCols | src/obj/indent.c:85-125 | the columns after the rounds of `output`'s loop, at most one per character consumed, the last being the column the call ends in |
| TextOut.PrettyStaysInWidth | src/obj/indent.c:108-122 | with pretty printing and no word longer than the room after the indentation, every round of the loop (each word written, with the blanks before it) ends at or before column 76, and so does the call |
| TextOut.Special | src/obj/indent.c:138-151 | the special set contains only XML special characters |
| TextOut.SpecialMembers | src/obj/indent.c:138-151 | each of `& < > " '` is special exactly when its flag bit is set |
| TextOut.CDataSet | src/obj/indent.c:138-151 | the character-data flag set escapes exactly `&`, `<` and `>` |
| TextOut.EscapeRoundTrip | src/obj/indent.c:180-209 | when `&` is escaped, replacing each entity by its character recovers the original text |
| TextOut.EscapeRemovesSpecials | src/obj/indent.c:180-209 | the only special character left in escaped text is the `&` that starts an entity |
| TextOut.SpanEndStops | src/obj/indent.c:183-186 | the span scan stops at the first special character or the end |
| TextOut.Writer.Cspn | src/obj/indent.c:183-186 | returns the end of the run of non-special characters |
| TextOut.Writer.EscapeRound | src/obj/indent.c:180-209 | one round writes a run of plain text, then the entity for the special character that ends it |
| TextOut.Writer.WriteEscaped | src/obj/indent.c:180-209 | the new text and column are those of `EscEmit` |
| TextOut.Writer.OutputEsc | src/obj/indent.c:128-212 | when the buffer must grow and cannot, returns -1 with nothing changed; otherwise grows it to the length plus one plus half the old size, and writes the escaped layout |
| TextOut.PlainEscapedOutput | src/obj/indent.c:128-212 | without pretty printing and without newlines, `output_esc` writes exactly the escaped text |
| Events.DepthConcat | src/obj/theconv.c:268-293 | the `<g>` nesting of two runs of output adds up |
| PathData.ElemAt | src/obj/theconv.c:429-482 | a path element advances past its start; code 0 ends the path; any code other than 0, 2, 5, 6 and 8 is unknown |
| PathData.PathLogIsCommands | src/obj/theconv.c:422-483 | `plot_path` writes one relative command per element, in order, then the abort diagnostic if an unknown code stopped it |
| PathData.DecodeEncode | src/obj/theconv.c:429-482 | the elements read back from an encoded list of segments, ended by a zero word, are those segments, with no diagnostic |
| PathData.AbsoluteRel | src/obj/theconv.c:436-477 | relative commands followed from the same starting point give back the absolute segments |
| PathData.PathRoundTrip | src/obj/theconv.c:422-483 | the relative commands `plot_path` writes, followed from the origin, reproduce the path's absolute coordinates |
| PathData.PathLogDepth | src/obj/theconv.c:422-483 | path data opens and closes no `<g>` |
| Convert.Converter.PlotPath | src/obj/theconv.c:422-483 | appends exactly the path data of the elements between the two offsets |
| Caps.Shifted | src/obj/theconv.c:338-345 | the window moves down by one slot and the new point enters last; the slots beyond are unchanged |
| Caps.Record | src/obj/theconv.c:338-345 | the array after the call is the shifted window |
| Caps.CapEvent | src/obj/theconv.c:370-380 | a cap is drawn exactly for cap kinds 1, 2 and 3 |
| Caps.SubpathCaps | src/obj/theconv.c:347-420 | an open subpath gets its start cap, pointing back from its second point, and its end cap on its last segment; a closed one gets only the start cap |
| Caps.LinesThenEnd | src/obj/theconv.c:365-411 | after the second point the walk records lines until the end code, where it draws the end cap from the last two points (none for a closed subpath) |
| Caps.CapsLogDepth | src/obj/theconv.c:347-420 | the cap walk opens and closes no `<g>` |
| Convert.Converter.PlotCaps | src/obj/theconv.c:347-420 | appends exactly the cap walk's events |
| PathStyle.DecodeStyle | src/obj/theconv.c:656-660 | each decoded field lies in its range |
| PathStyle.EncodeStyle | src/obj/theconv.c:656-660 | a style packs into a 32-bit word whose reserved byte is zero |
| PathStyle.StyleRoundTrip | src/obj/theconv.c:656-660 | decoding an encoded style gives the style back |
| PathStyle.StyleReadsAllButReserved | src/obj/theconv.c:656-660 | decoding then re-encoding a word loses only the reserved byte (bits 8-15) |
| PathStyle.Transparency | src/obj/theconv.c:661-662 | a colour word's opacity is 0 exactly when its low byte is 0xff (transparent) and 255 exactly when it is 0 |
| PathStyle.Colour | src/obj/theconv.c:696-699 | a colour is written as `#` and six hex digits |
| PathStyle.DashElems | src/obj/theconv.c:711-717 | the dash array has as many elements as the count word says, none if it is not positive, and they are the words that follow |
| PathStyle.StrokeAttrsWritten | src/obj/theconv.c:693-729 | `stroke-linecap` is written exactly when the stroke is drawn, the path is not divided and the start cap is not butt; the join and opacity are written exactly when drawn and not default; `stroke: none` exactly when the stroke is transparent |
| PathStyle.FillAttrsWritten | src/obj/theconv.c:731-746 | `fill-rule` is written exactly when the fill is drawn and the winding bit is 0 (non-zero winding); `fill-opacity` exactly when drawn and partly transparent; `fill: none` exactly when the fill is transparent |
| PathStyle.StrokeListOpen | src/obj/theconv.c:693-729 | no stroke attribute closes the `style` value |
| PathStyle.FillListWritten | src/obj/theconv.c:731-746 | the fill attributes close the `style` value exactly once, at the end |
| PathStyle.PathStyleClosed | src/obj/theconv.c:689-746 | the main path's `style` attribute is closed exactly once, after its last property |
| PathStyle.CapStyleClosed | src/obj/theconv.c:800-814 | the caps path's `style` attribute is closed exactly once |
| PathStyle.CapJoinBlock | src/obj/theconv.c:762-775 | the join-and-cap block handed to the stroker is 16 bytes |
| PathStyle.CapJoinFields | src/obj/theconv.c:762-775 | the block holds the join, a mitre limit of 2.0 in 16.16 fixed point, and the triangle cap width and length in sixteenths, the same for both ends |
| TextPath.Winds | src/obj/theconv.c:138-143 | every record's winding bit is 0 or 1 |
| TextPath.VotesAddUp | src/obj/theconv.c:138-143 | the two vote counts add up to the number of records |
| TextPath.Majority | src/obj/theconv.c:144 | the group rule is even-odd exactly when strictly more records are even-odd than non-zero; ties go to non-zero |
| TextPath.Vote | src/obj/theconv.c:136-145 | the vote loop returns the majority of the records' winding bits |
| TextPath.GroupAttrsClosed | src/obj/theconv.c:149-169 | with the tag closed after `fill: none`, the group's start tag is closed exactly once whatever the fill, and `fill-rule` is written exactly when the fill is drawn and the majority is non-zero |
| TextPath.RecordsLogDepth | src/obj/theconv.c:171-205 | the outline records open and close no `<g>` |
| TextPath.TextGroupDepth | src/obj/theconv.c:149-207 | the text group's `<g>` is closed: painted text leaves the nesting as it was |
| Convert.Converter.GroupStyle | src/obj/theconv.c:151-169 | appends the group's style attributes for the fill word and majority rule |
| Convert.Converter.TextRecord | src/obj/theconv.c:177-204 | appends one record's `<path>`: its own fill rule when it differs from the group's, then its path data from after the header and any dash block |
| Convert.Converter.TextRecords | src/obj/theconv.c:171-205 | appends the records in buffer order up to the end or a zero word |
| Convert.Converter.TextGroup | src/obj/theconv.c:136-207 | appends the `<g>` carrying the majority rule, the records, and `</g>`, leaving the indentation as it was |
| Convert.Converter.ConvertTextPath | src/obj/theconv.c:59-208 | appends the outline group for the text's font and string, or nothing when no outline is returned |
| Convert.NameEnd | src/obj/theconv.c:844-845 | the name scan stops at the first NUL after its start |
| Convert.FontEntries | src/obj/theconv.c:835-847 | every font-table entry has a non-zero font number |
| Convert.FontsLastWins | src/obj/theconv.c:835-847 | after a font table, a font number keeps its old name if the table omits it, and otherwise takes the name of its last entry |
| Convert.Converter.ConvertFonts | src/obj/theconv.c:835-847 | the font names after the loop are the old ones updated by the table's entries in order |
| Convert.Converter.SkipName | src/obj/theconv.c:843-845 | returns the offset just past the name's NUL |
| Convert.Converter.constructor | src/obj/theconv.c:946-952 | a new converter starts with an empty output, indentation 0 and every font named `System.Fixed` |
| Convert.Converter.StrokeStyle | src/obj/theconv.c:693-729 | appends exactly the stroke attributes of the path's style |
| Convert.Converter.FillStyle | src/obj/theconv.c:731-746 | appends exactly the fill attributes |
| Convert.Converter.CapStyle | src/obj/theconv.c:800-814 | appends exactly the caps path's fill attributes |
| Convert.Converter.DashLengths | src/obj/theconv.c:711-717 | writes the dash lengths in order, as raw output |
| Convert.Converter.DrawnPath | src/obj/theconv.c:679-755 | appends the main `<path>` (style, then path data to the object's end) and restores the indentation |
| Convert.Converter.CapsPath | src/obj/theconv.c:757-823 | appends the caps `<path>` over the thickened outline and restores the indentation |
| Convert.Converter.ConvertPath | src/obj/theconv.c:650-830 | appends the main path when its stroke or fill is drawn and the caps path when divided, inside a `<g>` when both are written; restores the indentation |
| Convert.PathObjectDepth | src/obj/theconv.c:650-830 | a path object leaves the `<g>` nesting as it was |
| Convert.Converter.UnknownTag | src/obj/theconv.c:881-885 | an object of any other tag writes nothing and changes nothing |
| Convert.Converter.Convert | src/obj/theconv.c:832-887 | the new output and font names are those `ConvertSpec` gives for the object's tag; the indentation is restored |
| Convert.Converter.ConvertDepth | src/obj/theconv.c:832-887 | converting any object leaves the `<g>` nesting as it was: every `<g>` written is closed |
| Convert.Converter.ConvertGroup | src/obj/theconv.c:274-293 | appends `<g>`, the children at two more columns, and `</g>` (the tags only when groups are kept); restores the indentation |
| Convert.Converter.GroupDepth | src/obj/theconv.c:274-293 | a group's output is balanced |
| Convert.Converter.Offsets | src/obj/theconv.c:268-272 | the walk visits the first object, then each object's successor by its length, all inside the range, and nothing exactly when the range is empty |
| Convert.Converter.ListVisits | src/obj/theconv.c:268-272 | converting a list is converting each visited object in turn |
| Convert.Converter.ConvertList | src/obj/theconv.c:268-272 | the new output and font names are those of `ListSpec` over the range; the indentation is restored |
| Convert.Converter.ListDepth | src/obj/theconv.c:268-272 | a list of objects leaves the `<g>` nesting as it was |
| Extremes.Reads | src/obj/theconv.c:507 | `fnmax` reads q - 1 values when q is at least 1, and none otherwise |
| Extremes.FnMax | src/obj/theconv.c:501-514 | returns the running extreme of `max` and the values read |
| Extremes.BestBounds | src/obj/theconv.c:501-514 | the result is the start value or one of the values, and nothing scaled by the sign exceeds it |
| Extremes.BestFirst | src/obj/theconv.c:507-511 | ties keep the earlier value: the result is the first value strictly above everything before it |
| Extremes.BestZero | src/obj/theconv.c:507-511 | with a zero sign the start value is returned |
| Extremes.MinNotAboveMax | src/obj/theconv.c:501-514 | the minimum of a set of values never exceeds their maximum |
| TextPath.GroupUnclosedWithoutFill | src/obj/theconv.c:156-157 | as written, a transparent fill leaves the group's `style` attribute unclosed |

## Left out

- Floating point: `%g` values (opacities, the thin-line width, cap geometry) are carried unformatted in events. Unit factors and `fnmax` work on `real`, without rounding. The millimetre factor is the source's rounded 0.0394 inch.
- `vsprintf` into `output`'s fixed buffer is not modelled: each call's text is given already formatted.
- Cap shapes (`plot_circ`, `plot_square`, `plot_tri`) are single `CapShape` events. Each shape's three or four `output(ws, true, …)` calls and their `%g` coordinates are not modelled. The budget pointer the shapes receive is unused (`src/obj/theconv.c:301`, `314`, `328`).
- Operating-system calls are parameters of the converter:
  - the font manager's outline of a text object is the `outlines` function. It gives none on any font-manager failure, after which `convert_text_path` writes nothing: no font found even with the fallback fonts, or a failed `Font_Paint` (`src/obj/theconv.c:98-99`, `107-113`, `130-134`);
  - `Draw_StrokePath`'s thickened outline is the `strokes` function, keyed on the path object alone. The cap-and-join block passed to it is modelled (`PathStyle.CapJoinBlock`, `PathStyle.CapJoinFields`) but is not an argument of `strokes`;
  - the font diagnostics of `convert_text_path` are not modelled.
- `convert_sprite` and `convert_text` are single events. `convert_tagged`, `process`, the view box, `xappend`/`xapply` and file handling are not part of this model.
- Allocation failure in `convert_path` and `convert_text_path` (print and abort) is not modelled. Only `output_esc`'s failed allocation is modelled, as an input.
- The font-table byte is read as an unsigned char, as on RISC OS.
- Words outside the drawfile read as 0.
- The dash lengths written with `fprintf` are `Raw` events.
- A line element that comes before any move in the thickened outline makes `plot_caps` read through a null window slot (`src/obj/theconv.c:398-406`). This is undefined in C. The model carries the missing point as `None` in the `CapShape` event and does not model what the C program does.
- Convert.Converter.ConvertList: requires every object length in the walk to be positive (`ListOk`). The source loops forever on a zero or negative length word.
- Convert.Converter.Convert: requires `ObjOk`: a group object's children must have positive lengths, for the same reason.
- Convert.Converter.ConvertGroup: requires the group's children to have positive lengths (`ListOk`), for the same reason.
- TextPath.Vote: requires the outline records to have positive lengths (`RecordsOk`). The source's loop never ends on a record of length zero or less.
- Convert.Converter.TextRecords: requires the outline records to have positive lengths (`RecordsOk`), for the same reason as `TextPath.Vote`.
- TextOut.Writer.Output: requires text without NUL, carriage return, vertical tab or form feed. The source stops at a NUL, and neither of its scanning loops advances over the other three.
- TextOut.Writer.OutputEsc: requires text without NUL, carriage return, vertical tab or form feed, for the same reason as `TextOut.Writer.Output`.
- PathData.PathRoundTrip: holds for paths in which every close is followed by a move or ends the path. After `Z`, an SVG reader continues from the subpath's start. `plot_path` keeps measuring from the last point before the close, so a line straight after a close would be read back elsewhere. Drawfile paths normally move after a close.
- PathData.PathRoundTrip: assumes unbounded integers. `plot_path` computes coordinate differences and negations (`-d[2]`, `d[1] - lx`, `-(d[2] - ly)`, `src/obj/theconv.c:436-477`) in C `int`. When a difference does not fit in 32 bits, the C result is undefined (it wraps on ARM), while the model writes the exact difference. Example: a move to (-2000000000, 0) followed by a line to (2000000000, 0). The round trip is faithful only when every coordinate difference fits in 32 bits.
- PathData.PathLogIsCommands: the relative commands it states are exact differences. They match `plot_path` only when every coordinate difference fits in 32 bits (see `PathData.PathRoundTrip`).
- Convert.Converter.PlotPath: writes exact coordinate differences. It matches `plot_path` only when every difference fits in 32 bits; C `int` overflow is not modelled.
- Convert.Converter.GroupStyle: on a transparent fill it writes the corrected `fill: none;'>` of `TextPath.GroupAttrs`, not the unclosed `fill: none;` of `src/obj/theconv.c:156-157`. The as-written behaviour is `TextPath.GroupAttrsAsWritten` (see "## Findings").
- Convert.Converter.TextGroup: its contract `TextGroupLog` uses the corrected group attributes, so for a transparent fill it promises the closed start tag, not the unclosed one the source writes (see "## Findings").
- Convert.Converter.ConvertTextPath: inherits the corrected start tag from `TextGroupLog`. For a text object with a transparent fill it differs from `src/obj/theconv.c:156-157` in that one place (see "## Findings").
- Extremes.FnMax: requires at least q - 1 values. Reading more variadic arguments than were passed is undefined in C.
- TextOut.PrettyStaysInWidth: bounds the column only when no word is longer than the room after the indentation. A longer word is written whole past column 76, as in the source. The bound is on the column at the end of each round. That within a round the column only grows, so no single character passes it, is not stated as a lemma.

## Findings

| source | as written | input that shows it | evidently intended | confidence | as-written member | corrected member |
|---|---|---|---|---|---|---|
| src/obj/theconv.c:156-157 | a text group whose fill is transparent writes `fill: none;` without the `'>` that closes its `style` attribute and start tag | a text object converted to outlines whose fill colour word has low byte 0xff | write `fill: none;'>` so that the start tag is closed exactly once, as on the coloured branch | not executed | TextPath.GroupUnclosedWithoutFill | TextPath.GroupAttrsClosed |
