/** What the traversal guarantees: x is always the margin plus the widths of the
    window's columns left of tdi, y the margin plus the heights of the window's rows
    above tri; the traversal stops exactly at the first row after the window; the drawing
    only grows; and a large sheet without a print range is refused before anything is
    drawn. */
module RenderFacts {
  import opened Base
  import opened Styles
  import opened Inheritance
  import opened Geometry
  import opened TextLayout
  import opened Rendering

  /** The first column of the window that exists. */
  function ColumnFloor(w: Window): nat { if w.minCol < 0 then 0 else w.minCol }

  /** How far into the window's columns the column index t has got. */
  function ColumnClamp(w: Window, t: nat): nat
  {
    var m := if t < w.maxCol + 1 then t else w.maxCol + 1;
    if m < ColumnFloor(w) then ColumnFloor(w) else m
  }

  /** The widths of the window's columns before column t. */
  function DrawnWidth(lay: Layout, t: nat): real
  {
    Known(lay.widths, ColumnFloor(lay.window), ColumnClamp(lay.window, t))
  }

  /** The first row of the window that exists. */
  function RowFloor(w: Window): nat { if w.minRow < 0 then 0 else w.minRow }

  /** The heights of the window's rows before row t. */
  function DrawnHeight(lay: Layout, t: nat): real
  {
    Known(lay.heights, RowFloor(lay.window), if t < RowFloor(lay.window) then RowFloor(lay.window) else t)
  }

  /** The row index at which the traversal stops: the first row past the window, or the
      first row of the window when the window is empty. */
  function StopRowIndex(w: Window): nat
  {
    var past := if w.maxRow + 1 < 0 then 0 else w.maxRow + 1;
    if w.minRow > past then w.minRow else past
  }

  /** A span left of the window does not move into the window's columns. */
  lemma SkipClamp(w: Window, tdi: nat, span: nat)
    requires ClipSpan(tdi, span, w.minCol, w.maxCol) == Skip
    ensures ColumnClamp(w, tdi + span) == ColumnClamp(w, tdi)
  {
  }

  /** A visible span covers the window's columns from the clamped start of the span to
      its clamped end. */
  lemma VisibleClamp(w: Window, tdi: nat, span: nat)
    requires ClipSpan(tdi, span, w.minCol, w.maxCol).Visible?
    ensures var clip := ClipSpan(tdi, span, w.minCol, w.maxCol);
      && ColumnFloor(w) <= clip.first <= clip.last + 1
      && ColumnClamp(w, tdi) == clip.first
      && ColumnClamp(w, tdi + span) == clip.last + 1
  {
  }

  /** The widths a visible span adds are those of the columns from its clamped start to
      its clamped end. */
  lemma VisibleWidth(lay: Layout, tdi: nat, span: nat)
    requires ClipSpan(tdi, span, lay.window.minCol, lay.window.maxCol).Visible?
    ensures var clip := ClipSpan(tdi, span, lay.window.minCol, lay.window.maxCol);
      DrawnWidth(lay, tdi + span) - DrawnWidth(lay, tdi) == Known(lay.widths, clip.first, (clip.last + 1) as nat)
  {
    var w := lay.window;
    var clip := ClipSpan(tdi, span, w.minCol, w.maxCol);
    VisibleClamp(w, tdi, span);
    var floor, first, end := ColumnFloor(w), clip.first, (clip.last + 1) as nat;
    assert DrawnWidth(lay, tdi) == Known(lay.widths, floor, first);
    assert DrawnWidth(lay, tdi + span) == Known(lay.widths, floor, end);
    KnownSplit(lay.widths, floor, first, end);
  }

  /** A visible copy draws its rectangle and then its text, so it only appends; it
      never stops the row; when it goes on, x has moved by the widths of the columns it
      covers, all of which exist. */
  lemma DrawSpanAppends(lay: Layout, paint: Painter, y: real, height: Option<real>, cell: Cell, style: Style, c: RowCursor, first: nat, last: int)
    requires -1 <= last
    ensures var f := DrawSpan(lay, paint, y, height, cell, style, c, first, last);
      && !f.Stop?
      && c.out <= f.state.out
      && (f.Continue? ==> f.state.x == c.x + Known(lay.widths, first, (last + 1) as nat)
                          && f.state.tdi == c.tdi + Count(cell.span))
  {
    var sum := SumOf(PySlice(lay.widths, first, (last + 1) as nat));
    if sum.Ok? {
      var drawn := c.out + [Rect(c.x, y, sum.value, height)];
      var deco := paint(c.tdi, style, cell.paragraphs, c.x, y, sum.value, height);
      assert c.out <= drawn;
      if deco.Ok? {
        assert DrawSpan(lay, paint, y, height, cell, style, c, first, last)
            == Continue(RowCursor(c.tdi + Count(cell.span), c.x + sum.value, drawn + deco.value));
        assert c.out <= drawn + deco.value;
        SumOfKnown(lay.widths, first, (last + 1) as nat);
      } else {
        assert DrawSpan(lay, paint, y, height, cell, style, c, first, last) == Abort(deco.error, c.(out := drawn));
      }
    } else {
      assert DrawSpan(lay, paint, y, height, cell, style, c, first, last) == Abort(sum.error, c);
    }
  }

  lemma DrawCopyVisible(lay: Layout, paint: Painter, y: real, height: Option<real>, cell: Cell, style: Style, c: RowCursor)
    requires ClipSpan(c.tdi, Count(cell.span), lay.window.minCol, lay.window.maxCol).Visible?
    ensures var f := DrawCopy(lay, paint, y, height, cell, style, c);
      var clip := ClipSpan(c.tdi, Count(cell.span), lay.window.minCol, lay.window.maxCol);
      && !f.Stop?
      && c.out <= f.state.out
      && (f.Continue? ==> f.state.x == c.x + Known(lay.widths, clip.first, (clip.last + 1) as nat)
                          && f.state.tdi == c.tdi + Count(cell.span))
  {
    var clip := ClipSpan(c.tdi, Count(cell.span), lay.window.minCol, lay.window.maxCol);
    assert DrawCopy(lay, paint, y, height, cell, style, c) == DrawSpan(lay, paint, y, height, cell, style, c, clip.first, clip.last);
    DrawSpanAppends(lay, paint, y, height, cell, style, c, clip.first, clip.last);
  }

  /** One copy of a cell moves tdi by the full span and x by the width of the window's
      columns it covers, only appends to the drawing, and leaves the cursor as it was
      when it stops the row. */
  lemma DrawCopyAdvance(lay: Layout, paint: Painter, y: real, height: Option<real>, cell: Cell, style: Style, c: RowCursor)
    ensures var f := DrawCopy(lay, paint, y, height, cell, style, c);
      && c.out <= f.state.out
      && (f.Continue? ==> f.state.tdi == c.tdi + Count(cell.span)
                          && f.state.x - DrawnWidth(lay, f.state.tdi) == c.x - DrawnWidth(lay, c.tdi))
      && (f.Stop? ==> f.state == c)
  {
    var span := Count(cell.span);
    var clip := ClipSpan(c.tdi, span, lay.window.minCol, lay.window.maxCol);
    if clip.Skip? {
      SkipClamp(lay.window, c.tdi, span);
    } else if clip.Visible? {
      DrawCopyVisible(lay, paint, y, height, cell, style, c);
      VisibleWidth(lay, c.tdi, span);
    }
  }

  lemma {:induction false} CopiesAdvance(lay: Layout, paint: Painter, y: real, height: Option<real>, cell: Cell, style: Style, c: RowCursor, n: nat)
    ensures var f := Copies(lay, paint, y, height, cell, style, c, n);
      && c.out <= f.state.out
      && (!f.Abort? ==> f.state.x - DrawnWidth(lay, f.state.tdi) == c.x - DrawnWidth(lay, c.tdi))
  {
    if n > 0 {
      CopiesAdvance(lay, paint, y, height, cell, style, c, n - 1);
      var f := Copies(lay, paint, y, height, cell, style, c, n - 1);
      if f.Continue? {
        DrawCopyAdvance(lay, paint, y, height, cell, style, f.state);
      }
    }
  }

  lemma {:induction false} RowCellsAdvance(lay: Layout, paint: Painter, y: real, height: Option<real>, cells: seq<Cell>, c: RowCursor)
    ensures var f := RowCells(lay, paint, y, height, cells, c);
      && c.out <= f.state.out
      && (!f.Abort? ==> f.state.x - DrawnWidth(lay, f.state.tdi) == c.x - DrawnWidth(lay, c.tdi))
  {
    if cells != [] {
      var init := cells[..|cells| - 1];
      RowCellsAdvance(lay, paint, y, height, init, c);
      var f := RowCells(lay, paint, y, height, init, c);
      var cell := cells[|cells| - 1];
      if f.Continue? && GetStyle(cell.styleName, lay.styles).Ok? {
        CopiesAdvance(lay, paint, y, height, cell, GetStyle(cell.styleName, lay.styles).value, f.state, Count(cell.repeat));
      }
    }
  }

  /** A drawn row ends with x at the margin plus the widths of the window's columns it
      reached. */
  lemma RowEndsAt(lay: Layout, paint: Painter, y: real, height: Option<real>, cells: seq<Cell>, out: seq<Element>)
    ensures var f := RowCells(lay, paint, y, height, cells, RowCursor(0, Margin, out));
      !f.Abort? ==> f.state.x == Margin + DrawnWidth(lay, f.state.tdi)
  {
    RowCellsAdvance(lay, paint, y, height, cells, RowCursor(0, Margin, out));
    assert ColumnClamp(lay.window, 0) == ColumnFloor(lay.window);
  }

  /** The row-level state the traversal keeps: tri never passes the stop index, y is the
      margin plus the heights of the window's rows above tri, and x, once set, is the
      margin plus the widths of the window's columns before the tdi the last drawn row
      ended at. */
  ghost predicate Tracks(lay: Layout, cur: Cursor)
  {
    && cur.tri <= StopRowIndex(lay.window)
    && cur.y == Margin + DrawnHeight(lay, cur.tri)
    && (cur.x.None? ==> cur.out == [])
    && (cur.x.Some? ==> cur.x.value == Margin + DrawnWidth(lay, cur.tdi))
  }

  /** The end of a drawn row: tri moves by one and y by the row's height. */
  lemma EndRowAdvance(lay: Layout, cur: Cursor, rc: RowCursor)
    requires Tracks(lay, cur) && cur.out <= rc.out
    requires lay.window.minRow <= cur.tri <= lay.window.maxRow && cur.tri < |lay.heights|
    requires rc.x == Margin + DrawnWidth(lay, rc.tdi)
    ensures var f := EndRow(cur, lay.heights[cur.tri], rc);
      && cur.out <= f.state.out
      && (!f.Abort? ==> Tracks(lay, f.state) && f.state.tri == cur.tri + 1)
  {
    var height := lay.heights[cur.tri];
    var f := EndRow(cur, height, rc);
    if height.Some? {
      KnownSplit(lay.heights, RowFloor(lay.window), cur.tri, cur.tri + 1);
      assert f.state.x.value == Margin + DrawnWidth(lay, rc.tdi);
      assert f.state.y == Margin + DrawnHeight(lay, cur.tri + 1);
    }
  }

  /** One copy of a row keeps the traversal's state; it stops only at the stop index. */
  lemma RowCopyAdvance(lay: Layout, paint: Painter, row: Row, cur: Cursor)
    requires Tracks(lay, cur)
    ensures var f := RowCopy(lay, paint, row, cur);
      && cur.out <= f.state.out
      && (!f.Abort? ==> Tracks(lay, f.state))
      && (f.Stop? ==> f.state == cur && cur.tri == StopRowIndex(lay.window))
      && (f.Continue? ==> f.state.tri == cur.tri + 1)
  {
    var w := lay.window;
    if cur.tri < w.minRow {
      assert RowCopy(lay, paint, row, cur) == Continue(cur.(tri := cur.tri + 1));
    } else if cur.tri > w.maxRow {
      assert RowCopy(lay, paint, row, cur) == Stop(cur);
    } else if cur.tri < |lay.heights| {
      var height := lay.heights[cur.tri];
      var start := RowCursor(0, Margin, cur.out);
      var f := RowCells(lay, paint, cur.y, height, row.cells, start);
      RowCellsAdvance(lay, paint, cur.y, height, row.cells, start);
      if f.Abort? {
        assert RowCopy(lay, paint, row, cur) == Abort(f.error, Cursor(cur.tri, cur.y, Some(f.state.x), f.state.tdi, f.state.out));
      } else {
        assert RowCopy(lay, paint, row, cur) == EndRow(cur, height, f.state);
        RowEndsAt(lay, paint, cur.y, height, row.cells, cur.out);
        EndRowAdvance(lay, cur, f.state);
      }
    }
  }

  lemma {:induction false} RowCopiesAdvance(lay: Layout, paint: Painter, row: Row, cur: Cursor, n: nat)
    requires Tracks(lay, cur)
    ensures var f := RowCopies(lay, paint, row, cur, n);
      && cur.out <= f.state.out
      && (!f.Abort? ==> Tracks(lay, f.state))
      && (f.Stop? ==> f.state.tri == StopRowIndex(lay.window))
  {
    if n > 0 {
      RowCopiesAdvance(lay, paint, row, cur, n - 1);
      var f := RowCopies(lay, paint, row, cur, n - 1);
      if f.Continue? {
        RowCopyAdvance(lay, paint, row, f.state);
      }
    }
  }

  lemma {:induction false} RunRowsAdvance(lay: Layout, paint: Painter, rows: seq<Row>, cur: Cursor)
    requires Tracks(lay, cur)
    ensures var f := RunRows(lay, paint, rows, cur);
      && cur.out <= f.state.out
      && (!f.Abort? ==> Tracks(lay, f.state))
      && (f.Stop? ==> f.state.tri == StopRowIndex(lay.window))
  {
    if rows != [] {
      var init := rows[..|rows| - 1];
      RunRowsAdvance(lay, paint, init, cur);
      var f := RunRows(lay, paint, init, cur);
      if f.Continue? {
        RowCopiesAdvance(lay, paint, rows[|rows| - 1], f.state, Count(rows[|rows| - 1].repeat));
      }
    }
  }

  /** The traversal from the top margin: when it ends without raising, y is the margin
      plus the heights of the window's rows it passed, it stopped (if it did) at the first
      row past the window, and x is unset only when nothing was drawn. */
  lemma Traversal(lay: Layout, paint: Painter, rows: seq<Row>)
    ensures var f := RunRows(lay, paint, rows, Cursor(0, Margin, None, 0, []));
      && (!f.Abort? ==> f.state.y == Margin + DrawnHeight(lay, f.state.tri) && f.state.tri <= StopRowIndex(lay.window))
      && (f.Stop? ==> f.state.tri == StopRowIndex(lay.window))
      && (!f.Abort? && f.state.x.None? ==> f.state.out == [])
      && (!f.Abort? && f.state.x.Some? ==> f.state.x.value == Margin + DrawnWidth(lay, f.state.tdi))
  {
    assert Tracks(lay, Cursor(0, Margin, None, 0, []));
    RunRowsAdvance(lay, paint, rows, Cursor(0, Margin, None, 0, []));
  }

  /** Once the layout is computed, the schedule is what the traversal from the top margin
      ends with: its exception and drawing so far, or the drawing it finishes. */
  lemma RenderOfTraversal(sheet: Sheet)
    requires Resolvable(SheetRelations(sheet)) && Prepare(sheet).Ok?
    ensures var lay := Prepare(sheet).value;
      var f := RunRows(lay, Painting(lay), sheet.rows, Cursor(0, Margin, None, 0, []));
      Render(sheet) == if f.Abort? then Failed(f.error, f.state.out) else Finish(f.state)
  {
  }

  /** The size of a saved drawing: the margin on both sides of the window's columns
      before the tdi at which the last drawn row ended (not the widest row), and of the
      window's rows above the row the traversal ended at. */
  lemma DrawingSize(sheet: Sheet)
    requires Resolvable(SheetRelations(sheet)) && Render(sheet).Drawn?
    ensures Prepare(sheet).Ok?
    ensures var lay := Prepare(sheet).value;
      var f := RunRows(lay, Painting(lay), sheet.rows, Cursor(0, Margin, None, 0, []));
      var d := Render(sheet).drawing;
      && !f.Abort? && f.state.x.Some? && d.elements == f.state.out
      && d.width == Margin + DrawnWidth(lay, f.state.tdi) + Margin
      && d.height == Margin + DrawnHeight(lay, f.state.tri) + Margin
      && f.state.tri <= StopRowIndex(lay.window)
  {
    var lay := Prepare(sheet).value;
    RenderOfTraversal(sheet);
    Traversal(lay, Painting(lay), sheet.rows);
  }

  /** When the traversal draws no row, x is never set: the schedule fails reading it,
      with nothing drawn. */
  lemma NoRowDrawnIsUnbound(sheet: Sheet)
    requires Resolvable(SheetRelations(sheet)) && Prepare(sheet).Ok?
    requires var f := RunRows(Prepare(sheet).value, Painting(Prepare(sheet).value), sheet.rows, Cursor(0, Margin, None, 0, []));
      !f.Abort? && f.state.x.None?
    ensures Render(sheet) == Failed(UnboundLocal, [])
  {
    RenderOfTraversal(sheet);
    Traversal(Prepare(sheet).value, Painting(Prepare(sheet).value), sheet.rows);
  }

  /** What the layout holds: one width and style name per expanded column, one height per
      expanded row; without a print range, the whole-sheet window and fewer than 10000
      cells. */
  lemma PrepareShape(sheet: Sheet)
    requires Resolvable(SheetRelations(sheet)) && Prepare(sheet).Ok?
    ensures var lay := Prepare(sheet).value;
      && |lay.widths| == |lay.columnStyles| == TotalCount(sheet.columns)
      && |lay.heights| == TotalCount(RowTracks(sheet.rows))
      && (sheet.printRange == "" ==> lay.window == WholeSheet && |lay.heights| * |lay.widths| < CellsLimit)
  {
    var table := StyleTable(sheet.defs);
    ExpandShape(sheet.columns, table, "column-width", DefaultColumnWidth);
    ExpandShape(RowTracks(sheet.rows), table, "row-height", DefaultRowHeight);
  }

  /** Without a print range, a grid of 10000 cells or more is refused before anything is
      drawn. */
  lemma GuardBeforeDrawing(sheet: Sheet)
    requires Resolvable(SheetRelations(sheet)) && sheet.printRange == ""
    requires var table := StyleTable(sheet.defs);
      && Expand(sheet.columns, table, "column-width", DefaultColumnWidth).Ok?
      && Expand(RowTracks(sheet.rows), table, "row-height", DefaultRowHeight).Ok?
      && Resolve(table, SheetRelations(sheet)).Ok?
      && TotalCount(RowTracks(sheet.rows)) * TotalCount(sheet.columns) >= CellsLimit
    ensures var n := TotalCount(RowTracks(sheet.rows));
      var m := TotalCount(sheet.columns);
      Render(sheet) == Failed(OversizedGrid(n, m, n * m), [])
  {
    var table := StyleTable(sheet.defs);
    ExpandShape(sheet.columns, table, "column-width", DefaultColumnWidth);
    ExpandShape(RowTracks(sheet.rows), table, "row-height", DefaultRowHeight);
  }

  /** A cell without style, span, repeat or text. */
  const Blank: Cell := Cell("", None, None, [])

  /** Two 50 mm columns; a first row of two blank cells, then a row of one. */
  const NarrowLastRow: Sheet :=
    Sheet([], [Track("", Some(2), "")], [Row("", None, "", [Blank, Blank]), Row("", None, "", [Blank])], "")

  /** The layout of NarrowLastRow: default sizes, no styles, the whole-sheet window. */
  const NarrowLayout: Layout :=
    Layout(map[], [Some(DefaultColumnWidth), Some(DefaultColumnWidth)], ["", ""],
           [Some(DefaultRowHeight), Some(DefaultRowHeight)], WholeSheet)

  lemma NarrowPrepare()
    ensures Resolvable(SheetRelations(NarrowLastRow))
    ensures Prepare(NarrowLastRow) == Ok(NarrowLayout)
  {
    var sheet := NarrowLastRow;
    var table: map<string, Style> := map[];
    assert StyleTable(sheet.defs) == table;
    var cols := [Track("", Some(2), "")];
    var rows := [Track("", None, ""), Track("", None, "")];
    assert sheet.columns == cols;
    assert RowTracks(sheet.rows) == rows;
    assert cols[..0] == [] && rows[..1] == [Track("", None, "")] && rows[..1][..0] == [];
    assert RelationsOf(cols) == [] && RelationsOf(rows) == [];
    assert SheetRelations(sheet) == [];
    var colsX := Expand(cols, table, "column-width", DefaultColumnWidth);
    assert colsX.Ok? && colsX.value.sizes == Repeat(Some(DefaultColumnWidth), 2) && colsX.value.names == Repeat("", 2);
    var row1 := [Track("", None, "")];
    assert rows[..1] == row1 && row1[..0] == [];
    assert Expand([], table, "row-height", DefaultRowHeight) == Ok(Expansion([], [], []));
    assert Entry("", table, "row-height", DefaultRowHeight) == Ok(Some(DefaultRowHeight));
    var rowX1 := Expand(row1, table, "row-height", DefaultRowHeight);
    assert rowX1.Ok? && rowX1.value.sizes == Repeat(Some(DefaultRowHeight), 1) && rowX1.value.names == Repeat("", 1) && rowX1.value.related == [];
    var rowsX := Expand(rows, table, "row-height", DefaultRowHeight);
    assert rowsX.Ok? && rowsX.value.sizes == rowX1.value.sizes + Repeat(Some(DefaultRowHeight), 1);
    assert |colsX.value.sizes| == 2 && |rowsX.value.sizes| == 2;
    assert PrintWindow("", 2, 2) == Ok(WholeSheet);
    assert colsX.value.sizes == [Some(DefaultColumnWidth), Some(DefaultColumnWidth)];
    assert colsX.value.names == ["", ""];
    assert rowsX.value.sizes == [Some(DefaultRowHeight), Some(DefaultRowHeight)];
  }

  /** A blank cell at column tdi of NarrowLayout draws its rectangle and nothing else. */
  lemma BlankCopy(y: real, c: RowCursor)
    requires c.tdi < 2
    ensures var next := RowCursor(c.tdi + 1, c.x + DefaultColumnWidth, c.out + [Rect(c.x, y, DefaultColumnWidth, Some(DefaultRowHeight))]);
      && Copies(NarrowLayout, Painting(NarrowLayout), y, Some(DefaultRowHeight), Blank, map[], c, 1) == Continue(next)
      && RowCells(NarrowLayout, Painting(NarrowLayout), y, Some(DefaultRowHeight), [Blank], c) == Continue(next)
  {
    var lay := NarrowLayout;
    assert GetStyle("", lay.styles) == Ok(map[]);
    assert ClipSpan(c.tdi, 1, 0, 16384) == Visible(c.tdi, c.tdi);
    assert PySlice(lay.widths, c.tdi, c.tdi + 1) == [Some(DefaultColumnWidth)];
    assert [Some(DefaultColumnWidth)][..0] == [];
    assert SumOf([Some(DefaultColumnWidth)]) == Ok(DefaultColumnWidth);
    assert SumOf(PySlice(lay.widths, c.tdi, (c.tdi as int + 1) as nat)) == Ok(DefaultColumnWidth);
    assert FontSize(map[]) == Ok(NominalHeight) by { FontSizeDefault(map[]); }
    assert CellLook(lay, c.tdi, map[]).Ok?;
    var h := Some(DefaultRowHeight);
    assert Decoration(lay, c.tdi, map[], [], c.x, y, DefaultColumnWidth, h) == Ok([]);
    assert Painting(lay)(c.tdi, map[], [], c.x, y, DefaultColumnWidth, h) == Ok([]);
    var next := RowCursor(c.tdi + 1, c.x + DefaultColumnWidth, c.out + [Rect(c.x, y, DefaultColumnWidth, h)]);
    var drawn := c.out + [Rect(c.x, y, DefaultColumnWidth, h)];
    assert Blank.paragraphs == [] && Count(Blank.span) == 1;
    var f := DrawSpan(lay, Painting(lay), y, h, Blank, map[], c, c.tdi, c.tdi);
    assert f.Continue?;
    assert f.state.tdi == c.tdi + 1;
    assert f.state.x == c.x + DefaultColumnWidth;
    assert f.state.out == drawn;
    assert f == Continue(next);
    assert DrawCopy(lay, Painting(lay), y, h, Blank, map[], c) == Continue(next);
    assert Copies(lay, Painting(lay), y, h, Blank, map[], c, 1) == Continue(next);
    assert [Blank][..0] == [];
    assert RowCells(lay, Painting(lay), y, h, [], c) == Continue(c);
  }

  /** The first row of NarrowLastRow draws two rectangles and ends at tdi 2. */
  lemma NarrowFirstRow()
    ensures var h := Some(DefaultRowHeight);
      RowCopy(NarrowLayout, Painting(NarrowLayout), NarrowLastRow.rows[0], Cursor(0, Margin, None, 0, []))
      == Continue(Cursor(1, Margin + DefaultRowHeight, Some(Margin + 2.0 * DefaultColumnWidth), 2,
                         [Rect(Margin, Margin, DefaultColumnWidth, h), Rect(Margin + DefaultColumnWidth, Margin, DefaultColumnWidth, h)]))
  {
    var lay := NarrowLayout;
    var paint := Painting(lay);
    var h := Some(DefaultRowHeight);
    var r0 := RowCursor(0, Margin, []);
    BlankCopy(Margin, r0);
    var r1 := RowCursor(1, Margin + DefaultColumnWidth, [Rect(Margin, Margin, DefaultColumnWidth, h)]);
    BlankCopy(Margin, r1);
    var r2 := RowCursor(2, Margin + 2.0 * DefaultColumnWidth, r1.out + [Rect(r1.x, Margin, DefaultColumnWidth, h)]);
    assert r0.out + [Rect(Margin, Margin, DefaultColumnWidth, h)] == r1.out;
    assert RowCells(lay, paint, Margin, h, [Blank], r0) == Continue(r1);
    assert Copies(lay, paint, Margin, h, Blank, map[], r1, 1) == Continue(r2);
    assert [Blank, Blank][..1] == [Blank];
    assert GetStyle("", lay.styles) == Ok(map[]);
    assert Count(Blank.repeat) == 1;
    assert RowCells(lay, paint, Margin, h, [Blank, Blank], r0)
        == Continue(r2);
    assert r2.out == [Rect(Margin, Margin, DefaultColumnWidth, h), Rect(Margin + DefaultColumnWidth, Margin, DefaultColumnWidth, h)];
    assert NarrowLastRow.rows[0].cells == [Blank, Blank];
    assert lay.heights[0] == h;
  }

  /** The second row of NarrowLastRow draws one rectangle and ends at tdi 1. */
  lemma NarrowSecondRow(out: seq<Element>)
    ensures var h := Some(DefaultRowHeight);
      RowCopy(NarrowLayout, Painting(NarrowLayout), NarrowLastRow.rows[1], Cursor(1, Margin + DefaultRowHeight, Some(Margin + 2.0 * DefaultColumnWidth), 2, out))
      == Continue(Cursor(2, Margin + 2.0 * DefaultRowHeight, Some(Margin + DefaultColumnWidth), 1,
                         out + [Rect(Margin, Margin + DefaultRowHeight, DefaultColumnWidth, h)]))
  {
    BlankCopy(Margin + DefaultRowHeight, RowCursor(0, Margin, out));
  }

  /** The drawing takes its width from where the last drawn row ended, not from the widest
      row: NarrowLastRow is one column plus the margins wide, though its first row spans
      two columns, and two rows plus the margins high. */
  lemma LastRowDecidesWidth()
    ensures Resolvable(SheetRelations(NarrowLastRow))
    ensures Render(NarrowLastRow).Drawn?
    ensures Render(NarrowLastRow).drawing.width == Margin + DefaultColumnWidth + Margin
    ensures Render(NarrowLastRow).drawing.height == Margin + 2.0 * DefaultRowHeight + Margin
  {
    NarrowPrepare();
    var lay := NarrowLayout;
    var paint := Painting(lay);
    RenderOfTraversal(NarrowLastRow);
    var rows := NarrowLastRow.rows;
    var c0 := Cursor(0, Margin, None, 0, []);
    NarrowFirstRow();
    var c1 := RowCopy(lay, paint, rows[0], c0).state;
    NarrowSecondRow(c1.out);
    var c2 := RowCopy(lay, paint, rows[1], c1).state;
    assert RowCopies(lay, paint, rows[0], c0, 1) == Continue(c1);
    assert RowCopies(lay, paint, rows[1], c1, 1) == Continue(c2);
    assert RunRows(lay, paint, rows[..1], c0) == Continue(c1) by {
      assert rows[..1][..0] == [];
      assert RunRows(lay, paint, [], c0) == Continue(c0);
    }
    assert RunRows(lay, paint, rows, c0) == Continue(c2) by {
      assert rows[..|rows| - 1] == rows[..1];
    }
    assert Render(NarrowLastRow) == Finish(c2);
  }
}
