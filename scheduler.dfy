/** The renderer as it runs: an object that owns the drawing, fills it element by element
    while walking the sheet with the cursors tri, y, tdi and x, and sets the drawing's
    size at the end. Each method is proved to do what the corresponding function of the
    Rendering module describes. */
module Scheduling {
  import opened Base
  import opened Styles
  import opened Inheritance
  import opened Geometry
  import opened TextLayout
  import opened Rendering
  import opened RenderFacts

  // One-step unfoldings of the traversal functions over a longer prefix, and the fact
  // that once a fold has stopped or raised, the rest of the input changes nothing.

  lemma {:induction false} CopiesHalt(lay: Layout, paint: Painter, y: real, height: Option<real>, cell: Cell, style: Style, c: RowCursor, j: nat, n: nat)
    requires j <= n && !Copies(lay, paint, y, height, cell, style, c, j).Continue?
    ensures Copies(lay, paint, y, height, cell, style, c, n) == Copies(lay, paint, y, height, cell, style, c, j)
    decreases n
  {
    if n > j {
      CopiesHalt(lay, paint, y, height, cell, style, c, j, n - 1);
    }
  }

  lemma RowCellsStep(lay: Layout, paint: Painter, y: real, height: Option<real>, cells: seq<Cell>, c: RowCursor, k: nat, c1: RowCursor)
    requires k < |cells| && RowCells(lay, paint, y, height, cells[..k], c) == Continue(c1)
    ensures var style := GetStyle(cells[k].styleName, lay.styles);
      RowCells(lay, paint, y, height, cells[..k + 1], c) ==
        if style.Err? then Abort(style.error, c1)
        else Copies(lay, paint, y, height, cells[k], style.value, c1, Count(cells[k].repeat))
  {
    assert cells[..k + 1][..k] == cells[..k];
  }

  lemma {:induction false} RowCellsHalt(lay: Layout, paint: Painter, y: real, height: Option<real>, cells: seq<Cell>, c: RowCursor, k: nat)
    requires k <= |cells| && !RowCells(lay, paint, y, height, cells[..k], c).Continue?
    ensures RowCells(lay, paint, y, height, cells, c) == RowCells(lay, paint, y, height, cells[..k], c)
    decreases |cells|
  {
    if k == |cells| {
      assert cells[..k] == cells;
    } else {
      var init := cells[..|cells| - 1];
      assert init[..k] == cells[..k];
      RowCellsHalt(lay, paint, y, height, init, c, k);
    }
  }

  lemma {:induction false} RowCopiesHalt(lay: Layout, paint: Painter, row: Row, cur: Cursor, j: nat, n: nat)
    requires j <= n && !RowCopies(lay, paint, row, cur, j).Continue?
    ensures RowCopies(lay, paint, row, cur, n) == RowCopies(lay, paint, row, cur, j)
    decreases n
  {
    if n > j {
      RowCopiesHalt(lay, paint, row, cur, j, n - 1);
    }
  }

  lemma RunRowsStep(lay: Layout, paint: Painter, rows: seq<Row>, cur: Cursor, i: nat, c1: Cursor)
    requires i < |rows| && RunRows(lay, paint, rows[..i], cur) == Continue(c1)
    ensures RunRows(lay, paint, rows[..i + 1], cur) == RowCopies(lay, paint, rows[i], c1, Count(rows[i].repeat))
  {
    assert rows[..i + 1][..i] == rows[..i];
  }

  lemma {:induction false} RunRowsHalt(lay: Layout, paint: Painter, rows: seq<Row>, cur: Cursor, i: nat)
    requires i <= |rows| && !RunRows(lay, paint, rows[..i], cur).Continue?
    ensures RunRows(lay, paint, rows, cur) == RunRows(lay, paint, rows[..i], cur)
    decreases |rows|
  {
    if i == |rows| {
      assert rows[..i] == rows;
    } else {
      var init := rows[..|rows| - 1];
      assert init[..i] == rows[..i];
      RunRowsHalt(lay, paint, init, cur, i);
    }
  }

  lemma {:induction false} WrapAllHalt(lines: seq<string>, i: nat, cellWidth: real, fontSize: real)
    requires i <= |lines| && WrapAll(lines[..i], cellWidth, fontSize).Err?
    ensures WrapAll(lines, cellWidth, fontSize) == WrapAll(lines[..i], cellWidth, fontSize)
    decreases |lines|
  {
    if i == |lines| {
      assert lines[..i] == lines;
    } else {
      var init := lines[..|lines| - 1];
      assert init[..i] == lines[..i];
      WrapAllHalt(init, i, cellWidth, fontSize);
    }
  }

  /** paint draws what Decoration draws, for every cell copy. */
  ghost predicate Paints(lay: Layout, paint: Painter)
  {
    forall tdi: nat, style: Style, paragraphs: seq<string>, x: real, y: real, width: real, height: Option<real>
      {:trigger Decoration(lay, tdi, style, paragraphs, x, y, width, height)} ::
      paint(tdi, style, paragraphs, x, y, width, height) == Decoration(lay, tdi, style, paragraphs, x, y, width, height)
  }

  lemma PaintingPaints(lay: Layout)
    ensures Paints(lay, Painting(lay))
  {
  }

  class Scheduler {
    /** The elements added to the drawing so far. */
    var elements: seq<Element>
    /** The drawing's width and height, set once the table is drawn. */
    var size: Option<(real, real)>

    constructor()
      ensures elements == [] && size == None
    {
      elements, size := [], None;
    }

    /** Everything the renderer computes before drawing: the style table, the expanded
        columns and rows, the flattened styles and the print window. */
    method PrepareLayout(sheet: Sheet) returns (r: Result<Layout>)
      requires Resolvable(SheetRelations(sheet))
      ensures r == Prepare(sheet)
    {
      var table := BuildStyles(sheet.defs);
      var cols := ExpandTracks(sheet.columns, table, "column-width", DefaultColumnWidth);
      if cols.Err? {
        return Err(cols.error);
      }
      var rows := ExpandTracks(RowTracks(sheet.rows), table, "row-height", DefaultRowHeight);
      if rows.Err? {
        return Err(rows.error);
      }
      ExpandShape(sheet.columns, table, "column-width", DefaultColumnWidth);
      ExpandShape(RowTracks(sheet.rows), table, "row-height", DefaultRowHeight);
      var styles := ResolveInheritance(table, cols.value.related + rows.value.related);
      if styles.Err? {
        return Err(styles.error);
      }
      var window := PrintWindow(sheet.printRange, |rows.value.sizes|, |cols.value.sizes|);
      if window.Err? {
        return Err(window.error);
      }
      return Ok(Layout(styles.value, cols.value.sizes, cols.value.names, rows.value.sizes, window.value));
    }

    /** schedule: a fresh drawing, the layout, the table drawn row by row, and the size
        taken from where the last drawn row ended and from the final y. An exception
        leaves the size unset and keeps what had been drawn. */
    method Schedule(sheet: Sheet) returns (failure: Option<Error>)
      requires Resolvable(SheetRelations(sheet))
      modifies this
      ensures Render(sheet).Drawn? ==>
        && failure == None
        && elements == Render(sheet).drawing.elements
        && size == Some((Render(sheet).drawing.width, Render(sheet).drawing.height))
      ensures Render(sheet).Failed? ==>
        failure == Some(Render(sheet).error) && elements == Render(sheet).elements && size == None
    {
      elements, size := [], None;
      var prepared := PrepareLayout(sheet);
      if prepared.Err? {
        return Some(prepared.error);
      }
      var lay := prepared.value;
      RenderOfTraversal(sheet);
      PaintingPaints(lay);
      var flow := DrawRows(lay, Painting(lay), sheet.rows);
      if flow.Abort? {
        return Some(flow.error);
      }
      var x := flow.state.x;
      if x.None? {
        assert Render(sheet) == Failed(UnboundLocal, flow.state.out);
        return Some(UnboundLocal);
      }
      size := Some((x.value + Margin, flow.state.y + Margin));
      return None;
    }

    /** The loop over the sheet's rows and their repetitions. The first copy past the
        window ends it (Python sets a flag and breaks out of both loops). */
    method DrawRows(lay: Layout, ghost paint: Painter, rows: seq<Row>) returns (flow: Flow<Cursor>)
      requires Paints(lay, paint)
      modifies this`elements
      ensures flow == RunRows(lay, paint, rows, Cursor(0, Margin, None, 0, old(elements)))
      ensures elements == flow.state.out
    {
      ghost var start := Cursor(0, Margin, None, 0, elements);
      var tri: nat, y: real, x: Option<real>, tdi: nat := 0, Margin, None, 0;
      var i := 0;
      while i < |rows|
        invariant i <= |rows|
        invariant RunRows(lay, paint, rows[..i], start) == Continue(Cursor(tri, y, x, tdi, elements))
      {
        var row := rows[i];
        ghost var c1 := Cursor(tri, y, x, tdi, elements);
        RunRowsStep(lay, paint, rows, start, i, c1);
        var n := Count(row.repeat);
        for j := 0 to n
          invariant RowCopies(lay, paint, row, c1, j) == Continue(Cursor(tri, y, x, tdi, elements))
        {
          var next := DrawRow(lay, paint, row, tri, y, x, tdi);
          if !next.Continue? {
            RowCopiesHalt(lay, paint, row, c1, j + 1, n);
            RunRowsHalt(lay, paint, rows, start, i + 1);
            return next;
          }
          tri, y, x, tdi := next.state.tri, next.state.y, next.state.x, next.state.tdi;
        }
        i := i + 1;
      }
      assert rows[..i] == rows;
      return Continue(Cursor(tri, y, x, tdi, elements));
    }

    /** One copy of a row: rows before the window only move tri; the first row after it
        stops; any other row is drawn from x = margin and then moves tri and y. */
    method DrawRow(lay: Layout, ghost paint: Painter, row: Row, tri: nat, y: real, x: Option<real>, tdi: nat) returns (next: Flow<Cursor>)
      requires Paints(lay, paint)
      modifies this`elements
      ensures next == RowCopy(lay, paint, row, Cursor(tri, y, x, tdi, old(elements)))
      ensures elements == next.state.out
    {
      if tri < lay.window.minRow {
        return Continue(Cursor(tri + 1, y, x, tdi, elements));
      } else if tri > lay.window.maxRow {
        return Stop(Cursor(tri, y, x, tdi, elements));
      }
      if tri >= |lay.heights| {
        return Abort(IndexError(tri), Cursor(tri, y, Some(Margin), tdi, elements));
      }
      var height := lay.heights[tri];
      var cells := DrawCells(lay, paint, y, height, row.cells);
      if cells.Abort? {
        return Abort(cells.error, Cursor(tri, y, Some(cells.state.x), cells.state.tdi, elements));
      }
      if height.None? {
        return Abort(TypeError, Cursor(tri + 1, y, Some(cells.state.x), cells.state.tdi, elements));
      }
      return Continue(Cursor(tri + 1, y + height.value, Some(cells.state.x), cells.state.tdi, elements));
    }

    /** The loop over a row's cells and their repetitions, from tdi = 0 and x = margin. A
        copy past the window ends the row. */
    method DrawCells(lay: Layout, ghost paint: Painter, y: real, height: Option<real>, cells: seq<Cell>) returns (flow: Flow<RowCursor>)
      requires Paints(lay, paint)
      modifies this`elements
      ensures flow == RowCells(lay, paint, y, height, cells, RowCursor(0, Margin, old(elements)))
      ensures elements == flow.state.out
    {
      ghost var start := RowCursor(0, Margin, elements);
      var tdi: nat, x: real := 0, Margin;
      var k := 0;
      while k < |cells|
        invariant k <= |cells|
        invariant RowCells(lay, paint, y, height, cells[..k], start) == Continue(RowCursor(tdi, x, elements))
      {
        var cell := cells[k];
        ghost var c1 := RowCursor(tdi, x, elements);
        RowCellsStep(lay, paint, y, height, cells, start, k, c1);
        var style := GetStyle(cell.styleName, lay.styles);
        if style.Err? {
          RowCellsHalt(lay, paint, y, height, cells, start, k + 1);
          return Abort(style.error, RowCursor(tdi, x, elements));
        }
        var next := DrawCellCopies(lay, paint, y, height, cell, style.value, tdi, x);
        if !next.Continue? {
          RowCellsHalt(lay, paint, y, height, cells, start, k + 1);
          return next;
        }
        tdi, x := next.state.tdi, next.state.x;
        k := k + 1;
      }
      assert cells[..k] == cells;
      return Continue(RowCursor(tdi, x, elements));
    }

    /** The copies of one cell, as many as it repeats; a copy past the window ends the
        row. */
    method DrawCellCopies(lay: Layout, ghost paint: Painter, y: real, height: Option<real>, cell: Cell, cellStyle: Style, tdi: nat, x: real)
      returns (flow: Flow<RowCursor>)
      requires Paints(lay, paint)
      modifies this`elements
      ensures flow == Copies(lay, paint, y, height, cell, cellStyle, RowCursor(tdi, x, old(elements)), Count(cell.repeat))
      ensures elements == flow.state.out
    {
      ghost var start := RowCursor(tdi, x, elements);
      var n := Count(cell.repeat);
      var tdi, x := tdi, x;
      for j := 0 to n
        invariant Copies(lay, paint, y, height, cell, cellStyle, start, j) == Continue(RowCursor(tdi, x, elements))
      {
        var next := DrawCellCopy(lay, paint, y, height, cell, cellStyle, tdi, x);
        if !next.Continue? {
          CopiesHalt(lay, paint, y, height, cell, cellStyle, start, j + 1, n);
          return next;
        }
        tdi, x := next.state.tdi, next.state.x;
      }
      return Continue(RowCursor(tdi, x, elements));
    }

    /** One copy of a cell: the span is clipped to the window, the rectangle drawn as
        wide as the clipped columns, then the cell's look worked out and its text added
        at the anchor. */
    method DrawCellCopy(lay: Layout, ghost paint: Painter, y: real, height: Option<real>, cell: Cell, cellStyle: Style, tdi: nat, x: real)
      returns (next: Flow<RowCursor>)
      requires Paints(lay, paint)
      modifies this`elements
      ensures next == DrawCopy(lay, paint, y, height, cell, cellStyle, RowCursor(tdi, x, old(elements)))
      ensures elements == next.state.out
    {
      var span := Count(cell.span);
      var first: int, last: int := tdi, tdi + span - 1;
      if first < lay.window.minCol {
        if last < lay.window.minCol {
          return Continue(RowCursor(tdi + span, x, elements));
        }
        first := lay.window.minCol;
      }
      if first > lay.window.maxCol {
        return Stop(RowCursor(tdi, x, elements));
      }
      if last > lay.window.maxCol {
        last := lay.window.maxCol;
      }
      assert ClipSpan(tdi, span, lay.window.minCol, lay.window.maxCol) == Visible(first, last);
      next := DrawVisibleCopy(lay, paint, y, height, cell, cellStyle, tdi, x, first as nat, last);
    }

    /** A copy whose span, clipped to the window, is first..last. */
    method DrawVisibleCopy(lay: Layout, ghost paint: Painter, y: real, height: Option<real>, cell: Cell, cellStyle: Style, tdi: nat, x: real, first: nat, last: int)
      returns (next: Flow<RowCursor>)
      requires Paints(lay, paint) && -1 <= last
      modifies this`elements
      ensures next == DrawSpan(lay, paint, y, height, cell, cellStyle, RowCursor(tdi, x, old(elements)), first, last)
      ensures elements == next.state.out
    {
      var width := SumOf(PySlice(lay.widths, first, (last + 1) as nat));
      if width.Err? {
        return Abort(width.error, RowCursor(tdi, x, elements));
      }
      elements := elements + [Rect(x, y, width.value, height)];
      var text := DrawDecoration(lay, paint, tdi, cellStyle, cell.paragraphs, x, y, width.value, height);
      if text.Err? {
        return Abort(text.error, RowCursor(tdi, x, elements));
      }
      return Continue(RowCursor(tdi + Count(cell.span), x + width.value, elements));
    }

    /** What a visible cell copy draws after its rectangle: the look of its own style or
        its column's, then its text. */
    method DrawDecoration(lay: Layout, ghost paint: Painter, tdi: nat, cellStyle: Style, paragraphs: seq<string>, x: real, y: real, width: real, height: Option<real>)
      returns (r: Result<seq<Element>>)
      requires Paints(lay, paint)
      modifies this`elements
      ensures r == paint(tdi, cellStyle, paragraphs, x, y, width, height)
      ensures elements == if r.Ok? then old(elements) + r.value else old(elements)
    {
      var look := CellLook(lay, tdi, cellStyle);
      if look.Err? {
        assert Decoration(lay, tdi, cellStyle, paragraphs, x, y, width, height) == Err(look.error);
        return Err(look.error);
      }
      r := DrawText(paragraphs, x, y, width, height, look.value);
      assert r == Decoration(lay, tdi, cellStyle, paragraphs, x, y, width, height);
    }

    /** The text of a visible cell copy: none without paragraphs, otherwise placed at the
        anchor its box alignment picks. */
    method DrawText(paragraphs: seq<string>, x: real, y: real, width: real, height: Option<real>, look: Look)
      returns (r: Result<seq<Element>>)
      modifies this`elements
      ensures r == CellText(paragraphs, x, y, width, height, look)
      ensures elements == if r.Ok? then old(elements) + r.value else old(elements)
    {
      if paragraphs == [] {
        return Ok([]);
      }
      var ax := AnchorX(look.box, x, width);
      var ay := AnchorY(look.box, y, height);
      if ay.Err? {
        return Err(ay.error);
      }
      var e := AddText(paragraphs, ax, ay.value, look.font, look.box, look.wrap, width);
      if e.Err? {
        return Err(e.error);
      }
      return Ok([e.value]);
    }

    /** add_text: one label for a single unwrapped paragraph; otherwise the paragraphs,
        wrapped one by one when asked, become tspans in reverse order, the k-th raised by
        k em. The element is added to the drawing. */
    method AddText(paragraphs: seq<string>, x: real, y: real, font: Font, box: string, wrap: bool, cellWidth: real)
      returns (r: Result<Element>)
      modifies this`elements
      ensures r == TextElement(paragraphs, x, y, font, box, wrap, cellWidth)
      ensures elements == if r.Ok? then old(elements) + [r.value] else old(elements)
    {
      var lines := Uppers(paragraphs);
      if |lines| == 1 && !wrap {
        var single := Label(lines[0], x, y, font, box);
        elements := elements + [single];
        return Ok(single);
      }
      var wrapped: seq<string>;
      if wrap {
        var r := WrapParagraphs(lines, cellWidth, font.size);
        if r.Err? {
          return Err(r.error);
        }
        wrapped := r.value;
      } else {
        wrapped := lines;
      }
      var tspans := StackLines(wrapped, x, y);
      var block := Block(font, box, tspans);
      elements := elements + [block];
      return Ok(block);
    }

    /** The wrapping loop of add_text: each paragraph split into lines of at most the
        budget the cell's width allows. */
    method WrapParagraphs(lines: seq<string>, cellWidth: real, fontSize: real) returns (r: Result<seq<string>>)
      ensures r == WrapAll(lines, cellWidth, fontSize)
    {
      var wrapped := [];
      for i := 0 to |lines|
        invariant WrapAll(lines[..i], cellWidth, fontSize) == Ok(wrapped)
      {
        assert lines[..i + 1][..i] == lines[..i];
        var width := WrapWidth(cellWidth, fontSize);
        if width.Err? {
          WrapAllHalt(lines, i + 1, cellWidth, fontSize);
          return Err(width.error);
        }
        var pieces := WrapLine(lines[i], width.value);
        if pieces.Err? {
          WrapAllHalt(lines, i + 1, cellWidth, fontSize);
          return Err(pieces.error);
        }
        wrapped := wrapped + pieces.value;
      }
      assert lines[..|lines|] == lines;
      return Ok(wrapped);
    }

    /** The tspans of add_text: the lines taken last first, the k-th raised by k em. */
    method StackLines(lines: seq<string>, x: real, y: real) returns (tspans: seq<Line>)
      ensures tspans == Stack(lines, x, y, 0)
    {
      tspans := [];
      for j := 0 to |lines|
        invariant |tspans| == j
        invariant forall m :: 0 <= m < j ==> tspans[m] == Line(lines[|lines| - 1 - m], x, y, m)
      {
        tspans := tspans + [Line(lines[|lines| - 1 - j], x, y, j)];
      }
      StackOrder(lines, x, y, 0);
    }
  }
}
