/** The schedule as a whole: the sheet's rows and cells, the layout computed from them
    before drawing (style table, expanded widths and heights, print window), and the
    traversal that walks rows and cells with the cursors tri, tdi, x and y, drawing one
    rectangle per visible cell copy and its text. */
module Rendering {
  import opened Base
  import opened Text
  import opened Units
  import opened Styles
  import opened Inheritance
  import opened Geometry
  import opened TextLayout

  /** Distance in millimetres between the drawing's edge and the table. */
  const Margin: real := 1.0

  /** A `table:table-cell`: its style name ("" for none), its column-span and repeat
      attributes, and the text of its paragraphs. */
  datatype Cell = Cell(styleName: string, span: Option<nat>, repeat: Option<nat>, paragraphs: seq<string>)

  /** A `table:table-row`: the attributes it shares with column definitions, and its cells. */
  datatype Row = Row(styleName: string, repeat: Option<nat>, defaultCellStyle: string, cells: seq<Cell>)

  /** The spreadsheet: its style definitions, the column and row elements of its first
      table, and that table's print range ("" when it has none). */
  datatype Sheet = Sheet(defs: seq<StyleDef>, columns: seq<Track>, rows: seq<Row>, printRange: string)

  function RowTrack(r: Row): Track { Track(r.styleName, r.repeat, r.defaultCellStyle) }

  function RowTracks(rows: seq<Row>): (ts: seq<Track>)
    ensures |ts| == |rows| && forall i :: 0 <= i < |rows| ==> ts[i] == RowTrack(rows[i])
  {
    seq(|rows|, i requires 0 <= i < |rows| => RowTrack(rows[i]))
  }

  /** The inheritance pairs of the columns, then those of the rows. */
  function SheetRelations(sheet: Sheet): seq<Relation>
  {
    RelationsOf(sheet.columns) + RelationsOf(RowTracks(sheet.rows))
  }

  /** What the traversal draws against: the flattened style table, the width and style
      name of every column, the height of every row, and the print window. */
  datatype Layout = Layout(styles: map<string, Style>, widths: seq<Option<real>>, columnStyles: seq<string>,
                           heights: seq<Option<real>>, window: Window)

  /** Everything computed before drawing, in the order the renderer does it. */
  function Prepare(sheet: Sheet): Result<Layout>
    requires Resolvable(SheetRelations(sheet))
  {
    var table := StyleTable(sheet.defs);
    var cols :- Expand(sheet.columns, table, "column-width", DefaultColumnWidth);
    var rows :- Expand(RowTracks(sheet.rows), table, "row-height", DefaultRowHeight);
    ExpandShape(sheet.columns, table, "column-width", DefaultColumnWidth);
    ExpandShape(RowTracks(sheet.rows), table, "row-height", DefaultRowHeight);
    var styles :- Resolve(table, cols.related + rows.related);
    var window :- PrintWindow(sheet.printRange, |rows.sizes|, |cols.sizes|);
    Ok(Layout(styles, cols.sizes, cols.names, rows.sizes, window))
  }

  /** The cursor within a row: the column index, the left edge of the next cell, and the
      drawing so far. */
  datatype RowCursor = RowCursor(tdi: nat, x: real, out: seq<Element>)

  /** How a cell's text is set: its box alignment, whether it wraps, and its font. */
  datatype Look = Look(box: string, wrap: bool, font: Font)

  /** A style's value for a key, or "" when it has none. */
  function Property(style: Style, key: string): string
  {
    if key in style then style[key] else ""
  }

  /** The look of a cell copy: its own style when that is non-empty, else the style of the
      column at the unclipped index tdi (a column past the last raises IndexError). */
  function CellLook(lay: Layout, tdi: nat, cellStyle: Style): Result<Look>
  {
    if tdi >= |lay.columnStyles| then Err(IndexError(tdi))
    else
      var columnStyle :- GetStyle(lay.columnStyles[tdi], lay.styles);
      var style := if cellStyle != map[] then cellStyle else columnStyle;
      var size :- FontSize(style);
      Ok(Look(BoxAlignment(style), Property(style, "wrap-option") == "wrap",
              Font(size, Property(style, "font-weight") == "bold", Property(style, "font-style") == "italic")))
  }

  /** The text of a cell copy: nothing without paragraphs, otherwise one element at the
      anchor the alignment picks. */
  function CellText(paragraphs: seq<string>, x: real, y: real, width: real, height: Option<real>, look: Look): Result<seq<Element>>
  {
    if paragraphs == [] then Ok([])
    else
      var ax := AnchorX(look.box, x, width);
      var ay :- AnchorY(look.box, y, height);
      var e :- TextElement(paragraphs, ax, ay, look.font, look.box, look.wrap, width);
      Ok([e])
  }

  /** What a visible cell copy draws after its rectangle: the look comes from the cell's
      style or its column's, then the text is placed. */
  function Decoration(lay: Layout, tdi: nat, cellStyle: Style, paragraphs: seq<string>, x: real, y: real, width: real, height: Option<real>): Result<seq<Element>>
  {
    var look :- CellLook(lay, tdi, cellStyle);
    CellText(paragraphs, x, y, width, height, look)
  }

  /** What a visible cell copy draws after its rectangle, from the column index, the
      cell's style, its paragraphs and the copy's left edge, top, width and height. The
      traversal below is written for any painter; the schedule uses Decoration. */
  type Painter = (nat, Style, seq<string>, real, real, real, Option<real>) -> Result<seq<Element>>

  function Painting(lay: Layout): Painter
  {
    (tdi: nat, style: Style, paragraphs: seq<string>, x: real, y: real, width: real, height: Option<real>) =>
      Decoration(lay, tdi, style, paragraphs, x, y, width, height)
  }

  /** One copy of a cell: clip its span to the window; a visible part is drawn as a
      rectangle as wide as the clipped columns, then its text; tdi always moves by the
      full span and x by the drawn width. */
  function DrawCopy(lay: Layout, paint: Painter, y: real, height: Option<real>, cell: Cell, cellStyle: Style, c: RowCursor): Flow<RowCursor>
  {
    var span := Count(cell.span);
    match ClipSpan(c.tdi, span, lay.window.minCol, lay.window.maxCol)
    case Skip => Continue(c.(tdi := c.tdi + span))
    case StopRow => Stop(c)
    case Visible(first, last) => DrawSpan(lay, paint, y, height, cell, cellStyle, c, first, last)
  }

  /** A copy whose span, clipped to the window, is first..last: a rectangle as wide as
      those columns (one without a width raises TypeError), then its text. */
  function DrawSpan(lay: Layout, paint: Painter, y: real, height: Option<real>, cell: Cell, cellStyle: Style, c: RowCursor, first: nat, last: int): Flow<RowCursor>
    requires -1 <= last
  {
    match SumOf(PySlice(lay.widths, first, (last + 1) as nat))
    case Err(e) => Abort(e, c)
    case Ok(width) =>
      var drawn := c.out + [Rect(c.x, y, width, height)];
      match paint(c.tdi, cellStyle, cell.paragraphs, c.x, y, width, height)
      case Err(e) => Abort(e, c.(out := drawn))
      case Ok(text) => Continue(RowCursor(c.tdi + Count(cell.span), c.x + width, drawn + text))
  }

  /** The first n copies of a cell; a copy that stops the row ends the repetition. */
  function Copies(lay: Layout, paint: Painter, y: real, height: Option<real>, cell: Cell, cellStyle: Style, c: RowCursor, n: nat): Flow<RowCursor>
  {
    if n == 0 then Continue(c)
    else
      match Copies(lay, paint, y, height, cell, cellStyle, c, n - 1)
      case Continue(c1) => DrawCopy(lay, paint, y, height, cell, cellStyle, c1)
      case other => other
  }

  /** The cells of a row in order: each looks its style up once (a missing name raises
      KeyError even for a cell repeated zero times), then draws its copies. */
  function RowCells(lay: Layout, paint: Painter, y: real, height: Option<real>, cells: seq<Cell>, c: RowCursor): Flow<RowCursor>
  {
    if cells == [] then Continue(c)
    else
      match RowCells(lay, paint, y, height, cells[..|cells| - 1], c)
      case Continue(c1) =>
        var cell := cells[|cells| - 1];
        (match GetStyle(cell.styleName, lay.styles)
         case Err(e) => Abort(e, c1)
         case Ok(style) => Copies(lay, paint, y, height, cell, style, c1, Count(cell.repeat)))
      case other => other
  }

  /** The traversal's cursor: the row index, the top of the next row, the x the last
      drawn row ended at (None before any row is drawn), the column index tdi that row
      ended at (0 before any row is drawn), and the drawing so far. */
  datatype Cursor = Cursor(tri: nat, y: real, x: Option<real>, tdi: nat, out: seq<Element>)

  /** One copy of a row: a row before the window only moves tri; the first row after it
      stops the traversal; any other is drawn from x = margin, then tri moves by one and
      y by the row's height (None raises TypeError there). */
  function RowCopy(lay: Layout, paint: Painter, row: Row, cur: Cursor): Flow<Cursor>
  {
    if cur.tri < lay.window.minRow then Continue(cur.(tri := cur.tri + 1))
    else if cur.tri > lay.window.maxRow then Stop(cur)
    else if cur.tri >= |lay.heights| then Abort(IndexError(cur.tri), cur.(x := Some(Margin)))
    else
      var height := lay.heights[cur.tri];
      match RowCells(lay, paint, cur.y, height, row.cells, RowCursor(0, Margin, cur.out))
      case Abort(e, rc) => Abort(e, Cursor(cur.tri, cur.y, Some(rc.x), rc.tdi, rc.out))
      case Continue(rc) => EndRow(cur, height, rc)
      case Stop(rc) => EndRow(cur, height, rc)
  }

  function EndRow(cur: Cursor, height: Option<real>, rc: RowCursor): Flow<Cursor>
  {
    if height.None? then Abort(TypeError, Cursor(cur.tri + 1, cur.y, Some(rc.x), rc.tdi, rc.out))
    else Continue(Cursor(cur.tri + 1, cur.y + height.value, Some(rc.x), rc.tdi, rc.out))
  }

  /** The first n copies of a row; a copy past the window ends the repetition. */
  function RowCopies(lay: Layout, paint: Painter, row: Row, cur: Cursor, n: nat): Flow<Cursor>
  {
    if n == 0 then Continue(cur)
    else
      match RowCopies(lay, paint, row, cur, n - 1)
      case Continue(c1) => RowCopy(lay, paint, row, c1)
      case other => other
  }

  /** The rows in order, each drawn as many times as it repeats. */
  function RunRows(lay: Layout, paint: Painter, rows: seq<Row>, cur: Cursor): Flow<Cursor>
  {
    if rows == [] then Continue(cur)
    else
      match RunRows(lay, paint, rows[..|rows| - 1], cur)
      case Continue(c1) => RowCopies(lay, paint, rows[|rows| - 1], c1, Count(rows[|rows| - 1].repeat))
      case other => other
  }

  /** The saved drawing: its elements and its size in millimetres. */
  datatype Drawing = Drawing(elements: seq<Element>, width: real, height: real)

  /** How a schedule ends: a drawing to save, or an exception with what had been drawn
      when it was raised. */
  datatype Outcome = Drawn(drawing: Drawing) | Failed(error: Error, elements: seq<Element>)

  /** The schedule of a sheet. The drawing is as wide as the x the last drawn row ended
      at, plus the margin; a sheet where no row is drawn leaves x unset. */
  function Render(sheet: Sheet): Outcome
    requires Resolvable(SheetRelations(sheet))
  {
    match Prepare(sheet)
    case Err(e) => Failed(e, [])
    case Ok(lay) =>
      match RunRows(lay, Painting(lay), sheet.rows, Cursor(0, Margin, None, 0, []))
      case Abort(e, c) => Failed(e, c.out)
      case Continue(c) => Finish(c)
      case Stop(c) => Finish(c)
  }

  function Finish(c: Cursor): Outcome
  {
    if c.x.None? then Failed(UnboundLocal, c.out)
    else Drawn(Drawing(c.out, c.x.value + Margin, c.y + Margin))
  }
}
