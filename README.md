# Schedule renderer: an ODS spreadsheet drawn as an SVG table

This project models the schedule renderer of the BlenderBIM drawing module. The renderer
reads the first table of an OpenDocument spreadsheet and draws it as an SVG drawing. Each
visible cell copy becomes a white rectangle. The cell's text is anchored inside the
rectangle according to its box alignment, upper-cased, and optionally word-wrapped. The
drawing is as wide as the point where the last drawn row ended, and as high as the rows
drawn, each plus a one-millimetre margin on both sides.

The model follows the renderer's own steps:

- **Base**: optional values, the exceptions the renderer can raise (`Error`), `Result`,
  and the three-way `Flow` of a traversal step (continue, stop, raise).
- **Text**: ASCII character classes, `upper()`, substring tests, `split`,
  `rsplit(sep, 1)[1]`, `int()` on an optionally signed digit string, and `float()` on
  plain decimal notation.
- **CellRef**: `col2num` (column letters as a bijective base-26 numeral) and `a1_to_rc`.
- **Units**: `convert_to_mm`, with the unit tests in the source's order and the XSL 1.0
  factors (px fixed at 1/96 inch, em read like px).
- **Styles**: the style table built from `style:style` elements, `get_style` and
  `get_box_alignment`.
- **Inheritance**: the loop that merges default-cell-style parents into their children,
  round by round, with `list.remove` semantics.
- **Geometry**: column and row definitions expanded by their repeat counts into widths,
  heights and style names. It also covers the print window (a print range, or the whole
  sheet behind the 10000-cell guard), clipping of a cell's column span to the window,
  Python slicing, and `sum()`.
- **TextLayout**: the anchor point per box alignment, the font size, the wrap budget
  `int(cell_width // FONT_WIDTH(font_size))`, greedy word wrapping, and the reversed
  stack of tspans raised by one em each.
- **Rendering**: the whole schedule as functions. These cover the layout computed before
  drawing, the row and cell traversal with the cursors `tri`, `y`, `tdi`, `x`, and the
  final size, or the exception with whatever had been drawn when it was raised.
- **RenderFacts**: what the traversal guarantees. `x` and `y` are always the margin plus
  the sizes of the window columns and rows passed. The traversal stops at the first row
  past the window. The drawing only grows. An oversized sheet without a print range is
  refused before anything is drawn.
- **Scheduling**: the renderer as an object (`Scheduler`). It owns the drawing's elements
  and its size, and fills the drawing with nested loops over rows, row repeats, cells and
  cell repeats. Every method is proved equal to the corresponding Rendering function.

The traversal functions take the cell-drawing step as a parameter (a `Painter`). The
schedule instantiates it with `Decoration`, the function that computes a cell copy's look
and text. The methods carry it as a ghost parameter tied to `Decoration` by the predicate
`Paints`.

## Model

| member | source | states |
|---|---|---|
| CellRef.Col2Num | src/blenderbim/blenderbim/bim/module/drawing/scheduler.py:37-45 | The accumulator loop computes the bijective base-26 value of the column's letters. |
| CellRef.ColumnNumberIgnoresNonLetters | src/blenderbim/blenderbim/bim/module/drawing/scheduler.py:42-44 | Characters that are not ASCII letters (such as `$`) do not change the column number. |
| CellRef.ColumnNumberIgnoresCase | src/blenderbim/blenderbim/bim/module/drawing/scheduler.py:44 | Upper-casing the column letters does not change the column number. |
| CellRef.ColumnNameRoundTrip | src/blenderbim/blenderbim/bim/module/drawing/scheduler.py:37-45 | Every number is the column number of its upper-case column name. |
| CellRef.ColumnNumberRoundTrip | src/blenderbim/blenderbim/bim/module/drawing/scheduler.py:37-45 | Every upper-case letter string is the column name of its column number, so the reading is injective. |
| CellRef.ColumnNumberExamples | src/blenderbim/blenderbim/bim/module/drawing/scheduler.py:38-39 | The docstring's examples hold: A is 1, Z is 26, AA is 27; lower case and `$` are read the same. |
| CellRef.StripDigitsOfReference | src/blenderbim/blenderbim/bim/module/drawing/scheduler.py:50 | `strip(string.digits)` of letters followed by digits leaves exactly the letters. |
| CellRef.A1ToRcOfReference | src/blenderbim/blenderbim/bim/module/drawing/scheduler.py:48-53 | A reference made of a column part and a row number gives the zero-based row and column. |
| CellRef.A1ToRcOfRow | src/blenderbim/blenderbim/bim/module/drawing/scheduler.py:50-53 | Once the text after the column part reads as a number, the row is that number less one and the column is the column number less one. |
| CellRef.A1ToRcSplit | src/blenderbim/blenderbim/bim/module/drawing/scheduler.py:50-53 | The row is `int()` of the text after the stripped column part; a non-numeric rest raises ValueError. |
| CellRef.A1RoundTrip | src/blenderbim/blenderbim/bim/module/drawing/scheduler.py:48-53 | Writing any zero-based (row, column) in A1 notation and reading it back gives the same pair. |
| CellRef.A1ToRcFirstCell | src/blenderbim/blenderbim/bim/module/drawing/scheduler.py:49 | The docstring's example: "A1" is (0, 0). |
| CellRef.A1ToRcTenthRowFourthColumn | src/blenderbim/blenderbim/bim/module/drawing/scheduler.py:48-53 | "D10" is (9, 3). |
| CellRef.A1ToRcAbsoluteReference | src/blenderbim/blenderbim/bim/module/drawing/scheduler.py:48-53 | An absolute reference "$A$1" is (0, 0). |
| CellRef.A1ToRcLeadingDigit | src/blenderbim/blenderbim/bim/module/drawing/scheduler.py:50-52 | The row text starts after as many characters as the stripped column part has, so "1A-2" strips to "A-" and reads its row from "-2": the result is (-3, 0). |
| Text.Upper | src/blenderbim/blenderbim/bim/module/drawing/scheduler.py:350 | Upper-casing keeps the length and maps each character to its ASCII upper case. |
| Text.AfterLast | src/blenderbim/blenderbim/bim/module/drawing/scheduler.py:156 | `rsplit(".", 1)[1]` is the separator-free tail after the last separator; it raises IndexError exactly when there is no separator. |
| Text.AfterLastOfJoin | src/blenderbim/blenderbim/bim/module/drawing/scheduler.py:156 | Whatever precedes the last separator, the text after it is returned unchanged. |
| Text.ParseInt | src/blenderbim/blenderbim/bim/module/drawing/scheduler.py:52 | `int()` succeeds exactly on an optional '+' or '-' followed by a non-empty digit string; the value is the digits' decimal value, negated after a '-'. A failure raises ValueError with the text. |
| Text.Unsigned | src/blenderbim/blenderbim/bim/module/drawing/scheduler.py:52 | The text after an optional sign is never longer than the text. |
| Text.ParseIntOfDigits | src/blenderbim/blenderbim/bim/module/drawing/scheduler.py:52 | A plain run of digits reads as the number it spells. |
| Text.ParseIntOfSigned | src/blenderbim/blenderbim/bim/module/drawing/scheduler.py:52 | A '-' followed by a run of digits reads as the negated number. |
| Text.ParseIntRoundTrip | src/blenderbim/blenderbim/bim/module/drawing/scheduler.py:52 | `int()` reads back the signed decimal numeral of every integer. |
| Text.DecimalRoundTrip | src/blenderbim/blenderbim/bim/module/drawing/scheduler.py:52 | Reading back the decimal numeral of n gives n. |
| Text.ParsedNumberHasNoLetters | src/blenderbim/blenderbim/bim/module/drawing/scheduler.py:393 | A string `float()` accepts contains no ASCII letter, so a unit suffix cannot hide inside the number. |
| Text.ParseFloatOfDecimal | src/blenderbim/blenderbim/bim/module/drawing/scheduler.py:393 | `float()` of the decimal numeral of n is n. |
| Units.ConvertToMm | src/blenderbim/blenderbim/bim/module/drawing/scheduler.py:388-412 | The result is None (no exception) exactly when none of the seven unit words occurs in the value. |
| Units.ConvertLength | src/blenderbim/blenderbim/bim/module/drawing/scheduler.py:392-412 | A number `float()` accepts, followed by a unit, converts to that number times the unit's millimetre factor. |
| Units.ConvertFactor | src/blenderbim/blenderbim/bim/module/drawing/scheduler.py:392-412 | For a letter-free number the branch taken is the one of its own unit, whatever the test order. |
| Units.OnlyTheUnitOccurs | src/blenderbim/blenderbim/bim/module/drawing/scheduler.py:392-408 | In a letter-free number plus a unit, a two-letter unit word occurs if and only if it is that unit. |
| Units.NotContainedInShorter | src/blenderbim/blenderbim/bim/module/drawing/scheduler.py:392 | A string never occurs in a shorter one. |
| Units.OneInchInEveryUnit | src/blenderbim/blenderbim/bim/module/drawing/scheduler.py:396-412 | One inch written as 1in, 72pt, 6pc, 96px or 96em converts to 25.4 mm. |
| Units.UnitlessValueGivesNone | src/blenderbim/blenderbim/bim/module/drawing/scheduler.py:392-412 | A bare number or a percentage falls through every branch and gives None. |
| Styles.BuildStyles | src/blenderbim/blenderbim/bim/module/drawing/scheduler.py:78-95 | The loop over style elements builds the style table; geometry styles read only their first child. |
| Styles.StyleTableHas | src/blenderbim/blenderbim/bim/module/drawing/scheduler.py:79-81 | A name is in the table if and only if some style element carries it. |
| Styles.StyleTableLast | src/blenderbim/blenderbim/bim/module/drawing/scheduler.py:79-95 | A name maps to the merged properties of the last element that carries it. |
| Styles.MergeGroupsLookup | src/blenderbim/blenderbim/bim/module/drawing/scheduler.py:93-95 | A merged key is present if and only if some group sets it, and it takes the value of the last group that does. |
| Styles.GetStyle | src/blenderbim/blenderbim/bim/module/drawing/scheduler.py:300-302 | An empty name gives the empty style; any other name gives its table entry or raises KeyError with that name. |
| Styles.AlignmentLabel | src/blenderbim/blenderbim/bim/module/drawing/scheduler.py:322-325 | The label is "center" if and only if both axes are "middle". |
| Styles.BoxAlignment | src/blenderbim/blenderbim/bim/module/drawing/scheduler.py:304-327 | A style is "center" if and only if its vertical and translated horizontal alignment are both middle. |
| Styles.BoxAlignmentDefaults | src/blenderbim/blenderbim/bim/module/drawing/scheduler.py:304-327 | Absent or "automatic" alignment gives bottom-left; middle/center gives center; top/end gives top-right. |
| Inheritance.Independent | src/blenderbim/blenderbim/bim/module/drawing/scheduler.py:144-145 | No style that is a child in the pairs is among a round's parents. |
| Inheritance.RemainingMembers | src/blenderbim/blenderbim/bim/module/drawing/scheduler.py:146-151 | After a round, a pair is left if and only if its parent was not one of the round's parents. |
| Inheritance.RemoveFirst | src/blenderbim/blenderbim/bim/module/drawing/scheduler.py:151 | `list.remove` shortens the list by exactly one. |
| Inheritance.RemoveFirstAt | src/blenderbim/blenderbim/bim/module/drawing/scheduler.py:151 | `list.remove` deletes the first occurrence and keeps the rest in order. |
| Inheritance.ResolveInheritance | src/blenderbim/blenderbim/bim/module/drawing/scheduler.py:142-151 | The while loop computes the round-by-round resolution of the pairs. |
| Inheritance.MergeIndependent | src/blenderbim/blenderbim/bim/module/drawing/scheduler.py:144-151 | One pass over a copy of the pairs merges each pair with an independent parent and leaves exactly the other pairs. |
| Inheritance.VisitPair | src/blenderbim/blenderbim/bim/module/drawing/scheduler.py:147-151 | One visited pair either raises the round's error, or advances the round and the list by that pair. |
| Inheritance.RoundShrinks | src/blenderbim/blenderbim/bim/module/drawing/scheduler.py:145-151 | A round that has parents removes at least one pair. |
| Inheritance.ResolveRound | src/blenderbim/blenderbim/bim/module/drawing/scheduler.py:142-151 | A successful round leaves a shorter, still resolvable list, and the rest of the loop works on it. |
| Inheritance.ResolveRoundFails | src/blenderbim/blenderbim/bim/module/drawing/scheduler.py:149-150 | A round that raises makes the whole loop raise the same error. |
| Inheritance.MergeRoundFacts | src/blenderbim/blenderbim/bim/module/drawing/scheduler.py:146-151 | One round keeps every style's own keys and gives each merged child its parent's keys. It changes no unmerged style and no parent. |
| Inheritance.MergeRoundChild | src/blenderbim/blenderbim/bim/module/drawing/scheduler.py:146-151 | A child whose parent is merged in the round becomes exactly `styles[parent] | styles[child]`: the parent's properties overridden by the child's own. |
| Inheritance.MergeRoundFails | src/blenderbim/blenderbim/bim/module/drawing/scheduler.py:149-150 | A round raises if and only if a pair it merges names a style missing from the table; otherwise the table keeps its names. |
| Inheritance.ResolveFacts | src/blenderbim/blenderbim/bim/module/drawing/scheduler.py:142-151 | After the loop every style keeps its own properties, every child holds all keys of its parent, and non-children are unchanged. |
| Inheritance.ResolveChild | src/blenderbim/blenderbim/bim/module/drawing/scheduler.py:142-151 | After the loop, a child with a single parent holds exactly its parent's final properties overridden by its own original ones. |
| Inheritance.ResolveFails | src/blenderbim/blenderbim/bim/module/drawing/scheduler.py:142-151 | The loop raises if and only if some pair names a style that is not in the table. |
| Inheritance.RankedIsResolvable | src/blenderbim/blenderbim/bim/module/drawing/scheduler.py:142-145 | Pairs that can be ranked child above parent (an acyclic inheritance) always terminate. |
| Inheritance.LowestParent | src/blenderbim/blenderbim/bim/module/drawing/scheduler.py:145 | Among ranked pairs, some parent has the lowest rank. |
| Inheritance.CycleIsNotResolvable | src/blenderbim/blenderbim/bim/module/drawing/scheduler.py:142-145 | A cycle of pairs is never worked off: every round keeps its pairs, so unless a round raises KeyError first, the loop never ends on it. |
| Geometry.ExpandTracks | src/blenderbim/blenderbim/bim/module/drawing/scheduler.py:104-140 | The column (or row) loop computes the expansion into sizes, style names and inheritance pairs. |
| Geometry.ExpandShape | src/blenderbim/blenderbim/bim/module/drawing/scheduler.py:106-119 | A track repeated n times contributes n consecutive entries with its style name and entry size; one entry per repeat in all. |
| Geometry.ExpandFails | src/blenderbim/blenderbim/bim/module/drawing/scheduler.py:110-114 | Expansion raises if and only if a track that repeats at least once has an entry that raises. |
| Geometry.ExpandErrorPersists | src/blenderbim/blenderbim/bim/module/drawing/scheduler.py:106-116 | After the first track that raises, later tracks do not change the outcome. |
| Geometry.EntryDefaults | src/blenderbim/blenderbim/bim/module/drawing/scheduler.py:111-114 | No style, or a style without the size, gives the default; a set size is converted to millimetres. |
| Geometry.PrintWindow | src/blenderbim/blenderbim/bim/module/drawing/scheduler.py:154-174 | Without a print range, the whole sheet is used if and only if the grid has under 10000 cells; otherwise it raises with the counts. |
| Geometry.PrintRangeWindow | src/blenderbim/blenderbim/bim/module/drawing/scheduler.py:154-156 | A range of two sheet-qualified references gives the window between their (row, column) pairs. |
| Geometry.PrintRangeNeedsTwoCorners | src/blenderbim/blenderbim/bim/module/drawing/scheduler.py:156 | A range with a single reference fails to unpack into two corners. |
| Geometry.CornerOfReference | src/blenderbim/blenderbim/bim/module/drawing/scheduler.py:156 | A sheet-qualified reference is read back as its (row, column). |
| Geometry.ClipSpan | src/blenderbim/blenderbim/bim/module/drawing/scheduler.py:215-234 | A span is skipped if and only if it ends left of the window, and stops the row if and only if its clamped start is right of it. A visible part covers exactly the span's columns inside the window. |
| Geometry.PySlice | src/blenderbim/blenderbim/bim/module/drawing/scheduler.py:236 | Slicing clamps the end to the length, is empty when the start is not before the end, and keeps the elements in order. |
| Geometry.SumOf | src/blenderbim/blenderbim/bim/module/drawing/scheduler.py:236 | `sum()` succeeds if and only if every size is a number (None raises TypeError). |
| Geometry.SumOfKnown | src/blenderbim/blenderbim/bim/module/drawing/scheduler.py:236 | A successful sum over the slice equals the sum of the sizes at those positions. |
| Geometry.KnownSplit | src/blenderbim/blenderbim/bim/module/drawing/scheduler.py:236 | Sums over adjacent column ranges add up. |
| TextLayout.LabelEnds | src/blenderbim/blenderbim/bim/module/drawing/scheduler.py:263-268 | For the eight non-centre alignments, the label ends with left, middle or right exactly as its horizontal part says. |
| TextLayout.LabelStarts | src/blenderbim/blenderbim/bim/module/drawing/scheduler.py:270-275 | For those labels, the start matches the vertical part in the same way. |
| TextLayout.AnchorOfAlignment | src/blenderbim/blenderbim/bim/module/drawing/scheduler.py:260-275 | For the nine alignments, the anchor is padded from the matching edge or at the cell's centre on each axis. |
| TextLayout.AnchorNeedsHeight | src/blenderbim/blenderbim/bim/module/drawing/scheduler.py:270-275 | An unknown row height raises if and only if the text is not anchored at the top. |
| TextLayout.UnknownAlignmentAtOrigin | src/blenderbim/blenderbim/bim/module/drawing/scheduler.py:262-268 | An alignment outside the vocabulary ("justify") matches no branch and leaves x at 0. |
| TextLayout.FontSizeScales | src/blenderbim/blenderbim/bim/module/drawing/scheduler.py:254-258 | The font size is the given number scaled by 4.13/12, whatever its two-letter unit. |
| TextLayout.FontSizeDefault | src/blenderbim/blenderbim/bim/module/drawing/scheduler.py:254-258 | A style without a font size gets 4.13 mm. |
| TextLayout.WrapWidth | src/blenderbim/blenderbim/bim/module/drawing/scheduler.py:375 | The wrap budget raises ZeroDivisionError if and only if the font size is zero. |
| TextLayout.WrapWidthFits | src/blenderbim/blenderbim/bim/module/drawing/scheduler.py:375 | The budget is the largest character count whose width fits the cell. |
| TextLayout.FillKeepsWords | src/blenderbim/blenderbim/bim/module/drawing/scheduler.py:375 | Greedy filling keeps every word, in order. |
| TextLayout.FillFits | src/blenderbim/blenderbim/bim/module/drawing/scheduler.py:375 | Every filled line is non-empty and fits the width, unless it is a single long word (long words are not broken). |
| TextLayout.FillDrawsFromWords | src/blenderbim/blenderbim/bim/module/drawing/scheduler.py:375 | Filled lines contain only words of the input. |
| TextLayout.WrapLine | src/blenderbim/blenderbim/bim/module/drawing/scheduler.py:375 | Wrapping raises if and only if the width is below one. |
| TextLayout.WrapLineFits | src/blenderbim/blenderbim/bim/module/drawing/scheduler.py:375 | No wrapped line exceeds the width unless it is a single word. |
| TextLayout.WrapLineKeepsWords | src/blenderbim/blenderbim/bim/module/drawing/scheduler.py:375 | Wrapping keeps the paragraph's words in order. |
| TextLayout.WrapAllFails | src/blenderbim/blenderbim/bim/module/drawing/scheduler.py:372-378 | Wrapping the paragraphs raises if and only if there is one and the budget is zero, negative or a division by zero. |
| TextLayout.Uppers | src/blenderbim/blenderbim/bim/module/drawing/scheduler.py:350 | One upper-cased line per paragraph, in order. |
| TextLayout.StackOrder | src/blenderbim/blenderbim/bim/module/drawing/scheduler.py:380-386 | The tspans are the lines last first, the j-th raised by j em. |
| TextLayout.StackPlacesLines | src/blenderbim/blenderbim/bim/module/drawing/scheduler.py:380-386 | In text order, each line is raised by the number of lines after it; the last sits on the anchor. |
| TextLayout.TextElementUnwrapped | src/blenderbim/blenderbim/bim/module/drawing/scheduler.py:350-386 | Without wrapping, text never fails. One paragraph is a label at the anchor; otherwise a block holds one upper-cased line per paragraph. |
| RenderFacts.SkipClamp | src/blenderbim/blenderbim/bim/module/drawing/scheduler.py:220-223 | A skipped span does not advance into the window's columns. |
| RenderFacts.VisibleClamp | src/blenderbim/blenderbim/bim/module/drawing/scheduler.py:220-234 | A visible span runs from the window-clamped start to the window-clamped end of the span. |
| RenderFacts.VisibleWidth | src/blenderbim/blenderbim/bim/module/drawing/scheduler.py:236 | The width drawn is the width of the window's columns between the span's clamped ends. |
| RenderFacts.DrawSpanAppends | src/blenderbim/blenderbim/bim/module/drawing/scheduler.py:236-288 | A visible copy never stops the row and only appends. Going on, x moves by the covered columns' widths and tdi by the full span. |
| RenderFacts.DrawCopyVisible | src/blenderbim/blenderbim/bim/module/drawing/scheduler.py:215-288 | The same, for a copy whose clipped span is visible. |
| RenderFacts.DrawCopyAdvance | src/blenderbim/blenderbim/bim/module/drawing/scheduler.py:215-288 | Each cell copy only appends, moves tdi by its span, and keeps x equal to the margin plus the window widths before tdi. A copy that stops the row changes nothing. |
| RenderFacts.CopiesAdvance | src/blenderbim/blenderbim/bim/module/drawing/scheduler.py:215-288 | The repeated copies of a cell keep the same relation between x and tdi. |
| RenderFacts.RowCellsAdvance | src/blenderbim/blenderbim/bim/module/drawing/scheduler.py:201-288 | All cells of a row keep that relation, and the drawing only grows. |
| RenderFacts.RowEndsAt | src/blenderbim/blenderbim/bim/module/drawing/scheduler.py:196-288 | A row drawn without error ends with x at the margin plus the window widths it reached. |
| RenderFacts.EndRowAdvance | src/blenderbim/blenderbim/bim/module/drawing/scheduler.py:290-291 | Ending a row moves tri by one and y by the row's height, keeping y equal to the margin plus the window heights above tri. |
| RenderFacts.RowCopyAdvance | src/blenderbim/blenderbim/bim/module/drawing/scheduler.py:188-199 | Each row copy keeps the traversal's invariant, and stops only at the first row past the window, unchanged. |
| RenderFacts.RowCopiesAdvance | src/blenderbim/blenderbim/bim/module/drawing/scheduler.py:188-194 | The repetitions of a row keep the invariant and stop only at the stop index. |
| RenderFacts.RunRowsAdvance | src/blenderbim/blenderbim/bim/module/drawing/scheduler.py:181-194 | The rows in order keep the invariant; the drawing only grows. |
| RenderFacts.Traversal | src/blenderbim/blenderbim/bim/module/drawing/scheduler.py:176-291 | From the top margin, the final y is the margin plus the heights passed, and the stop is the first row past the window. x is unset only if nothing was drawn; otherwise it is the margin plus the window widths up to the tdi where the last drawn row ended. |
| RenderFacts.RenderOfTraversal | src/blenderbim/blenderbim/bim/module/drawing/scheduler.py:176-298 | Once the layout is computed, the schedule ends as the traversal does: its exception, or the drawing it finishes. |
| RenderFacts.DrawingSize | src/blenderbim/blenderbim/bim/module/drawing/scheduler.py:287-297 | A saved drawing holds the traversal's elements. Its width is the window's column widths up to the tdi where the last drawn row ended, and its height the row heights up to the final tri, each plus a margin on both sides. |
| RenderFacts.NarrowPrepare | src/blenderbim/blenderbim/bim/module/drawing/scheduler.py:104-174 | The layout of a two-row sheet without styles: two default-width columns, two default-height rows, the whole-sheet window. |
| RenderFacts.BlankCopy | src/blenderbim/blenderbim/bim/module/drawing/scheduler.py:215-288 | A blank, unstyled cell in that layout draws one default-width rectangle and moves tdi by one. |
| RenderFacts.NarrowFirstRow | src/blenderbim/blenderbim/bim/module/drawing/scheduler.py:188-291 | Its first row of two blank cells draws two rectangles and ends at tdi 2. |
| RenderFacts.NarrowSecondRow | src/blenderbim/blenderbim/bim/module/drawing/scheduler.py:188-291 | Its second row of one blank cell draws one rectangle and ends at tdi 1. |
| RenderFacts.LastRowDecidesWidth | src/blenderbim/blenderbim/bim/module/drawing/scheduler.py:287-297 | The width comes from where the last drawn row ended, not from the widest row: that sheet is one column plus the margins wide, though its first row spans two columns. |
| RenderFacts.NoRowDrawnIsUnbound | src/blenderbim/blenderbim/bim/module/drawing/scheduler.py:293 | When no row is drawn, x is never bound: the schedule raises with an empty drawing. |
| RenderFacts.PrepareShape | src/blenderbim/blenderbim/bim/module/drawing/scheduler.py:104-174 | One width and style name per expanded column and one height per expanded row. Without a print range: the whole-sheet window and under 10000 cells. |
| RenderFacts.GuardBeforeDrawing | src/blenderbim/blenderbim/bim/module/drawing/scheduler.py:159-170 | Without a print range, a grid of 10000 cells or more raises with its counts before anything is drawn. |
| Scheduling.CopiesHalt | src/blenderbim/blenderbim/bim/module/drawing/scheduler.py:228-230 | Once a copy stops the row or raises, further repeats change nothing. |
| Scheduling.RowCellsStep | src/blenderbim/blenderbim/bim/module/drawing/scheduler.py:201-215 | The next cell first looks its style up (raising on a missing name), then draws its repeats. |
| Scheduling.RowCellsHalt | src/blenderbim/blenderbim/bim/module/drawing/scheduler.py:201-203 | After the row is stopped or raised, later cells change nothing. |
| Scheduling.RowCopiesHalt | src/blenderbim/blenderbim/bim/module/drawing/scheduler.py:188-194 | After the traversal stops or raises, further row repeats change nothing. |
| Scheduling.RunRowsStep | src/blenderbim/blenderbim/bim/module/drawing/scheduler.py:181-188 | The next row element draws its repeats from where the previous rows ended. |
| Scheduling.RunRowsHalt | src/blenderbim/blenderbim/bim/module/drawing/scheduler.py:181-183 | After the traversal stops or raises, later rows change nothing. |
| Scheduling.WrapAllHalt | src/blenderbim/blenderbim/bim/module/drawing/scheduler.py:374-376 | After a paragraph's wrap raises, later paragraphs change nothing. |
| Scheduling.PaintingPaints | src/blenderbim/blenderbim/bim/module/drawing/scheduler.py:245-286 | The schedule's cell-drawing step is Decoration for every cell copy. |
| Scheduling.Scheduler.constructor | src/blenderbim/blenderbim/bim/module/drawing/scheduler.py:58-62 | A new drawing is empty and has no size. |
| Scheduling.Scheduler.PrepareLayout | src/blenderbim/blenderbim/bim/module/drawing/scheduler.py:78-174 | The statements before drawing compute the layout, raising where the source raises. |
| Scheduling.Scheduler.Schedule | src/blenderbim/blenderbim/bim/module/drawing/scheduler.py:57-298 | A drawn schedule leaves the elements and the size of Render. A failed one reports its exception, keeps the partial elements and leaves the size unset. |
| Scheduling.Scheduler.DrawRows | src/blenderbim/blenderbim/bim/module/drawing/scheduler.py:176-194 | The row loops do what RunRows describes, with the drawing as its final elements. |
| Scheduling.Scheduler.DrawRow | src/blenderbim/blenderbim/bim/module/drawing/scheduler.py:188-199 | One row copy (with lines 290-291) does what RowCopy describes. |
| Scheduling.Scheduler.DrawCells | src/blenderbim/blenderbim/bim/module/drawing/scheduler.py:198-213 | The cell loop from tdi 0 and the margin does what RowCells describes. |
| Scheduling.Scheduler.DrawCellCopies | src/blenderbim/blenderbim/bim/module/drawing/scheduler.py:215-230 | The repeat loop of a cell does what Copies describes. |
| Scheduling.Scheduler.DrawCellCopy | src/blenderbim/blenderbim/bim/module/drawing/scheduler.py:216-234 | The clipping statements do what DrawCopy describes. |
| Scheduling.Scheduler.DrawVisibleCopy | src/blenderbim/blenderbim/bim/module/drawing/scheduler.py:236-288 | A visible copy's width, rectangle, text and cursor moves do what DrawSpan describes. |
| Scheduling.Scheduler.DrawDecoration | src/blenderbim/blenderbim/bim/module/drawing/scheduler.py:245-286 | A copy's look and text are appended as Decoration computes them, or the exception is returned. |
| Scheduling.Scheduler.DrawText | src/blenderbim/blenderbim/bim/module/drawing/scheduler.py:260-286 | The anchor and the text element are appended as CellText computes them. |
| Scheduling.Scheduler.AddText | src/blenderbim/blenderbim/bim/module/drawing/scheduler.py:329-386 | add_text appends exactly the element TextElement computes, or nothing when wrapping raises. |
| Scheduling.Scheduler.WrapParagraphs | src/blenderbim/blenderbim/bim/module/drawing/scheduler.py:372-378 | The wrapping loop computes WrapAll, raising at the first paragraph that raises. |
| Scheduling.Scheduler.StackLines | src/blenderbim/blenderbim/bim/module/drawing/scheduler.py:380-386 | The tspan loop produces the reversed, em-raised stack of lines. |

## Left out

- Loading the ODS file and walking its XML (`load_ods`, `getElementsByType`, attribute access) is not modelled. The sheet is given as a `Sheet` value holding the style definitions, the column and row elements of the first table, and the print range. A document without a table (`[0]` on an empty list) is not modelled.
- The `DEBUG` branch, which writes the pretty-printed XML, is switched off by a constant and is left out.
- svgwrite is left out: the drawing's SVG attributes, the style string of rectangles, the `mm` formatting of the size and the viewBox, and `save`. The drawing is a sequence of `Element` values plus a width and height.
- `SvgWriter.get_box_alignment_parameters` is not part of this model; elements carry the box-alignment label itself.
- Text attributes are reduced to size, bold and italic. The font family and the block's font-size "0" are constant and are not modelled.
- `textwrap.wrap` is modelled as greedy filling of space-separated words with `break_long_words=False`. Tabs and other whitespace, hyphen splitting and sentence-ending rules are not modelled.
- `float()` is modelled on plain decimal notation only (no exponents, infinities, underscores or surrounding whitespace). Floating-point arithmetic is modelled with exact reals, so rounding is not modelled.
- Text.ParseInt: surrounding whitespace and `_` digit separators, which `int()` also accepts, are not modelled; such text raises ValueError in the model.
- Text.Upper: only ASCII letters are upper-cased.
- Negative repeat and span attributes are not modelled. Attributes are `Option<nat>`: absent means 1, and 0 is kept as given.
- Cyclic default-cell-style inheritance makes the source's while loop run forever, unless a KeyError ends the run first. A round can raise before the cycle is reached: the pairs [("C", "D"), ("A", "B"), ("B", "A")] with no style C raise KeyError in the first round. The column and row expansion (lines 111 and 131) can also raise KeyError before the loop starts. Prepare, Render and Scheduling.Scheduler.Schedule require the pairs to be resolvable (`Resolvable`), which is a condition on the pairs alone. So these requires also exclude sheets whose pairs hold a cycle but whose run would end with a KeyError. The model proves that a cycle is never resolvable (`Inheritance.CycleIsNotResolvable`) and that acyclic pairs always are (`Inheritance.RankedIsResolvable`).
- `str(p)` of a paragraph element is modelled as the paragraph's text.
- On an exception, the schedule keeps the elements drawn so far in memory but never saves them; the model returns them with the exception.
- Scheduling.Scheduler.DrawRows and the other drawing methods take the cell-drawing step as a ghost `Painter` tied to `Decoration` by `Paints`. Schedule instantiates it with `Painting`, so the schedule as a whole is stated against Decoration itself.
- The file paths `infile` and `outfile`, and the file system, are not modelled.
- The operators and user interface that call the scheduler are not part of this model.
