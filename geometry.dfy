/** The sheet's geometry before anything is drawn: column and row definitions expanded by
    their repeat counts into one size and one style name per column and per row, the
    window of cells to print, the clipping of a cell's column span to that window, and
    the sum of the widths a clipped span covers. */
module Geometry {
  import opened Base
  import opened Text
  import opened CellRef
  import opened Units
  import opened Styles
  import opened Inheritance

  /** Sizes in millimetres for a column or row whose style sets no size. */
  const DefaultColumnWidth: real := 50.0
  const DefaultRowHeight: real := 6.0

  /** The 10000-cell guard that applies when the sheet defines no print range. */
  const CellsLimit: nat := 10000

  /** A `table:table-column` or `table:table-row` element: its style name ("" when it has
      none), its repeat attribute and its default cell style name ("" when it has none). */
  datatype Track = Track(styleName: string, repeat: Option<nat>, defaultCellStyle: string)

  /** A repeat or span attribute: absent means 1; a present value is used as given. */
  function Count(attribute: Option<nat>): nat
  {
    match attribute
    case None => 1
    case Some(n) => n
  }

  /** The size of one entry: the default when the track has no style or its style does
      not set the size; otherwise the converted length (None for a value in no known
      unit). A style name missing from the table raises KeyError. */
  function Entry(styleName: string, styles: map<string, Style>, key: string, default: real): Result<Option<real>>
  {
    if styleName == "" then Ok(Some(default))
    else if styleName !in styles then Err(KeyError(styleName))
    else if key !in styles[styleName] then Ok(Some(default))
    else ConvertToMm(styles[styleName][key])
  }

  /** The (child, parent) pair a track contributes to inheritance: its style and its
      default cell style, when it names one. */
  function RelationOf(t: Track): seq<Relation>
  {
    if t.defaultCellStyle != "" then [(t.styleName, t.defaultCellStyle)] else []
  }

  function RelationsOf(tracks: seq<Track>): seq<Relation>
  {
    if tracks == [] then [] else RelationsOf(tracks[..|tracks| - 1]) + RelationOf(tracks[|tracks| - 1])
  }

  /** The number of entries the tracks expand to. */
  function TotalCount(tracks: seq<Track>): nat
  {
    if tracks == [] then 0 else TotalCount(tracks[..|tracks| - 1]) + Count(tracks[|tracks| - 1].repeat)
  }

  /** The position of the m-th copy of the k-th track in the expanded lists. */
  function Slot(tracks: seq<Track>, k: nat, m: nat): nat
    requires k <= |tracks|
  {
    TotalCount(tracks[..k]) + m
  }

  function Repeat<T>(x: T, n: nat): (s: seq<T>)
    ensures |s| == n && forall i :: 0 <= i < n ==> s[i] == x
  {
    seq(n, _ => x)
  }

  /** What expanding a list of tracks produces: one size and one style name per entry,
      and the inheritance pairs of the tracks in order. */
  datatype Expansion = Expansion(sizes: seq<Option<real>>, names: seq<string>, related: seq<Relation>)

  /** The expansion of the tracks: each track, in order, appends its entry and its style
      name as many times as it repeats, then its inheritance pair. */
  function Expand(tracks: seq<Track>, styles: map<string, Style>, key: string, default: real): Result<Expansion>
  {
    if tracks == [] then Ok(Expansion([], [], []))
    else
      var t := tracks[|tracks| - 1];
      var before :- Expand(tracks[..|tracks| - 1], styles, key, default);
      var n := Count(t.repeat);
      if n == 0 then Ok(before.(related := before.related + RelationOf(t)))
      else
        var e :- Entry(t.styleName, styles, key, default);
        Ok(Expansion(before.sizes + Repeat(e, n), before.names + Repeat(t.styleName, n), before.related + RelationOf(t)))
  }

  /** The loop over column (or row) elements that fills the size list, the style-name list
      and the inheritance pairs. */
  method ExpandTracks(tracks: seq<Track>, styles: map<string, Style>, key: string, default: real) returns (r: Result<Expansion>)
    ensures r == Expand(tracks, styles, key, default)
  {
    var sizes: seq<Option<real>> := [];
    var names: seq<string> := [];
    var related: seq<Relation> := [];
    for k := 0 to |tracks|
      invariant Expand(tracks[..k], styles, key, default) == Ok(Expansion(sizes, names, related))
    {
      var t := tracks[k];
      ExpandStep(tracks, k, styles, key, default);
      var n := Count(t.repeat);
      ghost var sizes0, names0 := sizes, names;
      for i := 0 to n
        invariant i > 0 ==> Entry(t.styleName, styles, key, default).Ok?
        invariant i > 0 ==> sizes == sizes0 + Repeat(Entry(t.styleName, styles, key, default).value, i)
        invariant i == 0 ==> sizes == sizes0
        invariant names == names0 + Repeat(t.styleName, i)
      {
        var size: Option<real>;
        if t.styleName == "" {
          size := Some(default);
        } else if t.styleName !in styles {
          ExpandErrorPersists(tracks, k + 1, styles, key, default);
          return Err(KeyError(t.styleName));
        } else if key !in styles[t.styleName] {
          size := Some(default);
        } else {
          var converted := ConvertToMm(styles[t.styleName][key]);
          if converted.Err? {
            ExpandErrorPersists(tracks, k + 1, styles, key, default);
            return Err(converted.error);
          }
          size := converted.value;
        }
        names := names + [t.styleName];
        sizes := sizes + [size];
      }
      if t.defaultCellStyle != "" {
        related := related + [(t.styleName, t.defaultCellStyle)];
      } else {
        assert related + RelationOf(t) == related;
      }
    }
    assert tracks[..|tracks|] == tracks;
    return Ok(Expansion(sizes, names, related));
  }

  /** One more track, in terms of the expansion of the tracks before it. */
  lemma ExpandStep(tracks: seq<Track>, k: nat, styles: map<string, Style>, key: string, default: real)
    requires k < |tracks|
    ensures var t := tracks[k];
      Expand(tracks[..k + 1], styles, key, default) ==
        match Expand(tracks[..k], styles, key, default)
        case Err(e) => Err(e)
        case Ok(before) =>
          if Count(t.repeat) == 0 then Ok(before.(related := before.related + RelationOf(t)))
          else match Entry(t.styleName, styles, key, default)
            case Err(e) => Err(e)
            case Ok(e) => Ok(Expansion(before.sizes + Repeat(e, Count(t.repeat)),
                                       before.names + Repeat(t.styleName, Count(t.repeat)),
                                       before.related + RelationOf(t)))
  {
    assert tracks[..k + 1][..k] == tracks[..k];
    assert tracks[..k + 1][k] == tracks[k];
  }

  /** Expansion stops at the first track that raises. */
  lemma {:induction false} ExpandErrorPersists(tracks: seq<Track>, j: nat, styles: map<string, Style>, key: string, default: real)
    requires j <= |tracks| && Expand(tracks[..j], styles, key, default).Err?
    ensures Expand(tracks, styles, key, default) == Expand(tracks[..j], styles, key, default)
    decreases |tracks| - j
  {
    if j < |tracks| {
      var init := tracks[..|tracks| - 1];
      assert init[..j] == tracks[..j];
      ExpandErrorPersists(init, j, styles, key, default);
    } else {
      assert tracks[..j] == tracks;
    }
  }

  /** Each track with repeat count n contributes exactly n copies of its entry and of its
      style name, at consecutive positions, and the lists have one entry per repeat. */
  lemma {:induction false} ExpandShape(tracks: seq<Track>, styles: map<string, Style>, key: string, default: real)
    requires Expand(tracks, styles, key, default).Ok?
    ensures var x := Expand(tracks, styles, key, default).value;
      && |x.sizes| == |x.names| == TotalCount(tracks)
      && x.related == RelationsOf(tracks)
      && forall k: nat, m: nat :: k < |tracks| && m < Count(tracks[k].repeat) ==>
           Slot(tracks, k, m) < TotalCount(tracks)
           && x.names[Slot(tracks, k, m)] == tracks[k].styleName
           && Entry(tracks[k].styleName, styles, key, default) == Ok(x.sizes[Slot(tracks, k, m)])
  {
    if tracks != [] {
      var last := |tracks| - 1;
      var init := tracks[..last];
      ExpandShape(init, styles, key, default);
      var x := Expand(tracks, styles, key, default).value;
      var before := Expand(init, styles, key, default).value;
      forall k: nat, m: nat | k < |tracks| && m < Count(tracks[k].repeat)
        ensures Slot(tracks, k, m) < TotalCount(tracks)
        ensures x.names[Slot(tracks, k, m)] == tracks[k].styleName
        ensures Entry(tracks[k].styleName, styles, key, default) == Ok(x.sizes[Slot(tracks, k, m)])
      {
        if k < last {
          assert tracks[..k] == init[..k];
          assert init[k] == tracks[k];
          assert Slot(tracks, k, m) == Slot(init, k, m);
        } else {
          assert tracks[..k] == init;
        }
      }
    }
  }

  /** Expansion raises exactly when some track that repeats at least once has an entry
      that raises: a style name missing from the table, or a length whose number float()
      rejects. */
  lemma {:induction false} ExpandFails(tracks: seq<Track>, styles: map<string, Style>, key: string, default: real)
    ensures Expand(tracks, styles, key, default).Err? <==>
      exists k :: 0 <= k < |tracks| && Count(tracks[k].repeat) > 0 && Entry(tracks[k].styleName, styles, key, default).Err?
  {
    if tracks != [] {
      var last := |tracks| - 1;
      var init := tracks[..last];
      ExpandFails(init, styles, key, default);
      if exists k :: 0 <= k < |init| && Count(init[k].repeat) > 0 && Entry(init[k].styleName, styles, key, default).Err? {
        var k :| 0 <= k < |init| && Count(init[k].repeat) > 0 && Entry(init[k].styleName, styles, key, default).Err?;
        assert tracks[k] == init[k];
      }
      if exists k :: 0 <= k < |tracks| && Count(tracks[k].repeat) > 0 && Entry(tracks[k].styleName, styles, key, default).Err? {
        var k :| 0 <= k < |tracks| && Count(tracks[k].repeat) > 0 && Entry(tracks[k].styleName, styles, key, default).Err?;
        if k < last { assert init[k] == tracks[k]; }
      }
    }
  }

  /** A track without a style, or whose style does not set the size, gets the default; a
      size in a known unit is converted to millimetres. */
  lemma EntryDefaults(styleName: string, styles: map<string, Style>, key: string, default: real, number: string, u: Unit)
    requires ParseFloat(number).Ok?
    ensures Entry("", styles, key, default) == Ok(Some(default))
    ensures styleName in styles && key !in styles[styleName] ==> Entry(styleName, styles, key, default) == Ok(Some(default))
    ensures styleName != "" && styleName in styles && key in styles[styleName] && styles[styleName][key] == number + Suffix(u) ==>
      Entry(styleName, styles, key, default) == Ok(Some(ParseFloat(number).value * MmPer(u)))
  {
    ConvertLength(number, u);
  }

  /** The cell window to print: rows minRow..maxRow and columns minCol..maxCol, both
      ends included, zero-based. */
  datatype Window = Window(minRow: int, minCol: int, maxRow: int, maxCol: int)

  /** The whole sheet: the largest row and column counts a spreadsheet allows. */
  const WholeSheet: Window := Window(0, 0, 1048576, 16384)

  /** The corners of a print range `Sheet.A1:Sheet.B2`: for each part between colons, the
      reference after its last '.', converted by a1_to_rc; the first failing part raises. */
  function Corners(parts: seq<string>): Result<seq<(int, int)>>
  {
    if parts == [] then Ok([])
    else
      var before :- Corners(parts[..|parts| - 1]);
      var rc :- Corner(parts[|parts| - 1]);
      Ok(before + [rc])
  }

  /** One corner: `cell.rsplit(".", 1)[1]` read by a1_to_rc. */
  function Corner(part: string): Result<(int, int)>
  {
    var cell :- AfterLast(part, '.');
    A1ToRc(cell)
  }

  /** The print window: from the print range when there is one, which must have exactly
      two corners; otherwise the whole sheet, unless the expanded grid has 10000 cells or
      more. */
  function PrintWindow(printRange: string, nRows: nat, nCols: nat): (r: Result<Window>)
    ensures printRange == "" ==> (r.Err? <==> nRows * nCols >= CellsLimit)
    ensures printRange == "" && r.Ok? ==> r.value == WholeSheet
    ensures printRange == "" && r.Err? ==> r.error == OversizedGrid(nRows, nCols, nRows * nCols)
  {
    if printRange != "" then
      var corners :- Corners(Split(printRange, ':'));
      if |corners| != 2 then Err(UnpackError(2, |corners|))
      else Ok(Window(corners[0].0, corners[0].1, corners[1].0, corners[1].1))
    else if nRows * nCols >= CellsLimit then Err(OversizedGrid(nRows, nCols, nRows * nCols))
    else Ok(WholeSheet)
  }

  lemma {:induction false} SplitTwo(a: string, b: string)
    requires ':' !in a && ':' !in b
    ensures Split(a + ":" + b, ':') == [a, b]
  {
    var s := a + ":" + b;
    assert IndexOf(s, ':') == |a| by {
      assert s[|a|] == ':';
      assert forall i :: 0 <= i < |a| ==> s[i] == a[i];
    }
    assert s[..|a|] == a;
    assert s[|a| + 1..] == b;
    assert IndexOf(b, ':') == |b|;
  }

  /** The reference of a zero-based (row, column) cell in A1 notation. */
  function Reference(row: nat, col: nat): string
  {
    ColumnName(col + 1) + Decimal(row + 1)
  }

  lemma ReferenceHasNoSeparators(row: nat, col: nat)
    ensures '.' !in Reference(row, col) && ':' !in Reference(row, col)
  {
    var s := Reference(row, col);
    var letters := ColumnName(col + 1);
    forall i | 0 <= i < |s| ensures s[i] != '.' && s[i] != ':' {
      if i < |letters| { assert s[i] == letters[i]; }
      else { assert s[i] == Decimal(row + 1)[i - |letters|]; }
    }
  }

  /** A sheet-qualified reference is read back as its (row, column) pair. */
  lemma CornerOfReference(sheet: string, row: nat, col: nat)
    ensures Corner(sheet + "." + Reference(row, col)) == Ok((row, col))
  {
    ReferenceHasNoSeparators(row, col);
    AfterLastOfJoin(sheet, '.', Reference(row, col));
    A1RoundTrip(row, col);
  }

  lemma CornersOfOne(a: string)
    ensures Corners([a]) == match Corner(a) case Err(e) => Err(e) case Ok(p) => Ok([p])
  {
    assert [a][..0] == [];
    assert Corners([a][..0]) == Ok([]);
    if Corner(a).Ok? {
      assert [] + [Corner(a).value] == [Corner(a).value];
    }
  }

  lemma CornersOfTwo(a: string, b: string)
    ensures Corners([a, b]) == match Corner(a)
      case Err(e) => Err(e)
      case Ok(p) => match Corner(b) case Err(e) => Err(e) case Ok(q) => Ok([p, q])
  {
    assert [a, b][..1] == [a];
    CornersOfOne(a);
    if Corner(a).Ok? && Corner(b).Ok? {
      var p, q := Corner(a).value, Corner(b).value;
      assert Corners([a, b]) == Ok([p] + [q]);
      assert [p] + [q] == [p, q];
    }
  }

  /** A print range with two colon-free parts is read corner by corner. */
  lemma PrintWindowOfTwo(a: string, b: string, nRows: nat, nCols: nat)
    requires ':' !in a && ':' !in b && Corner(a).Ok? && Corner(b).Ok?
    ensures PrintWindow(a + ":" + b, nRows, nCols)
      == Ok(Window(Corner(a).value.0, Corner(a).value.1, Corner(b).value.0, Corner(b).value.1))
  {
    SplitTwo(a, b);
    CornersOfTwo(a, b);
    assert a + ":" + b != "";
  }

  /** A print range written as two sheet-qualified A1 references gives the window
      between them, whatever the grid's size. */
  lemma PrintRangeWindow(sheet1: string, sheet2: string, r1: nat, c1: nat, r2: nat, c2: nat, nRows: nat, nCols: nat)
    requires ':' !in sheet1 && ':' !in sheet2
    ensures PrintWindow((sheet1 + "." + Reference(r1, c1)) + ":" + (sheet2 + "." + Reference(r2, c2)), nRows, nCols)
      == Ok(Window(r1, c1, r2, c2))
  {
    var a := sheet1 + "." + Reference(r1, c1);
    var b := sheet2 + "." + Reference(r2, c2);
    ReferenceHasNoSeparators(r1, c1);
    ReferenceHasNoSeparators(r2, c2);
    NoColonInJoin(sheet1, Reference(r1, c1));
    NoColonInJoin(sheet2, Reference(r2, c2));
    CornerOfReference(sheet1, r1, c1);
    CornerOfReference(sheet2, r2, c2);
    PrintWindowOfTwo(a, b, nRows, nCols);
  }

  lemma NoColonInJoin(x: string, y: string)
    requires ':' !in x && ':' !in y
    ensures ':' !in x + "." + y
  {
    var s := x + "." + y;
    forall i | 0 <= i < |s| ensures s[i] != ':' {
      if i < |x| { assert s[i] == x[i]; }
      else if i > |x| { assert s[i] == y[i - |x| - 1]; }
    }
  }

  lemma SplitOne(a: string)
    requires ':' !in a
    ensures Split(a, ':') == [a]
  {
    assert IndexOf(a, ':') == |a| by {
      if IndexOf(a, ':') < |a| { assert false; }
    }
  }

  /** A print range with a single reference cannot be unpacked into two corners. */
  lemma PrintRangeNeedsTwoCorners(sheet: string, row: nat, col: nat, nRows: nat, nCols: nat)
    requires ':' !in sheet
    ensures PrintWindow(sheet + "." + Reference(row, col), nRows, nCols) == Err(UnpackError(2, 1))
  {
    var a := sheet + "." + Reference(row, col);
    ReferenceHasNoSeparators(row, col);
    NoColonInJoin(sheet, Reference(row, col));
    SplitOne(a);
    CornerOfReference(sheet, row, col);
    CornersOfOne(a);
  }

  /** How a cell's column span meets the window. */
  datatype Clip =
    | Skip                            // entirely left of the window: only the column index moves
    | StopRow                         // starts right of the window: the rest of the row is not drawn
    | Visible(first: nat, last: int)  // the columns first..last are drawn

  predicate InSpan(c: int, tdi: nat, span: nat) { tdi <= c < tdi + span }

  predicate InWindowColumns(c: int, minCol: int, maxCol: int) { minCol <= c <= maxCol }

  predicate Covers(clip: Clip, c: int) { clip.Visible? && clip.first <= c <= clip.last }

  /** Clipping of the span tdi..tdi+span-1 to the window's columns. */
  function ClipSpan(tdi: nat, span: nat, minCol: int, maxCol: int): (clip: Clip)
    ensures clip == Skip <==> tdi < minCol && tdi + span <= minCol
    ensures clip == StopRow <==> !(tdi < minCol && tdi + span <= minCol) && (if tdi < minCol then minCol else tdi) > maxCol
    ensures clip.Visible? ==> forall c :: Covers(clip, c) <==> InSpan(c, tdi, span) && InWindowColumns(c, minCol, maxCol)
    ensures clip.Visible? ==> clip.first <= maxCol && tdi <= clip.first && minCol <= clip.first && -1 <= clip.last
    ensures clip.Visible? && tdi < minCol ==> clip.first == minCol
    ensures clip.Visible? ==> (clip.last == maxCol || clip.last == tdi + span - 1) && clip.last <= maxCol
  {
    var start := tdi;
    var end := tdi + span - 1;
    if start < minCol && end < minCol then Skip
    else
      var first := if start < minCol then minCol else start;
      if first > maxCol then StopRow
      else Visible(first, if end > maxCol then maxCol else end)
  }

  /** Python's `s[a:b]` for non-negative bounds: both are clamped to the length. */
  function PySlice<T>(s: seq<T>, a: nat, b: nat): (r: seq<T>)
    ensures a <= |s| && a <= b ==> |r| == (if b <= |s| then b else |s|) - a
    ensures forall i :: 0 <= i < |r| ==> a + i < |s| && r[i] == s[a + i]
    ensures a >= b || a >= |s| ==> r == []
  {
    var hi := if b <= |s| then b else |s|;
    if a >= hi then [] else s[a..hi]
  }

  /** `sum()` of a list of sizes: adding a None raises TypeError. */
  function SumOf(s: seq<Option<real>>): (r: Result<real>)
    ensures r.Ok? <==> forall i :: 0 <= i < |s| ==> s[i].Some?
  {
    if s == [] then Ok(0.0)
    else
      var before :- SumOf(s[..|s| - 1]);
      var last := s[|s| - 1];
      if last.None? then Err(TypeError) else Ok(before + last.value)
  }

  /** The sum of the known sizes at positions lo up to hi; positions past the end
      count as nothing. */
  function Known(ws: seq<Option<real>>, lo: nat, hi: nat): real
    decreases hi
  {
    if hi <= lo then 0.0
    else Known(ws, lo, hi - 1) + (if hi - 1 < |ws| && ws[hi - 1].Some? then ws[hi - 1].value else 0.0)
  }

  lemma {:induction false} KnownPastEnd(ws: seq<Option<real>>, lo: nat, hi: nat)
    requires |ws| <= lo
    ensures Known(ws, lo, hi) == 0.0
    decreases hi
  {
    if hi > lo {
      KnownPastEnd(ws, lo, hi - 1);
    }
  }

  /** Sums over adjacent ranges add up. */
  lemma {:induction false} KnownSplit(ws: seq<Option<real>>, a: nat, b: nat, c: nat)
    requires a <= b <= c
    ensures Known(ws, a, b) + Known(ws, b, c) == Known(ws, a, c)
    decreases c
  {
    if c > b {
      KnownSplit(ws, a, b, c - 1);
    }
  }

  lemma {:induction false} SumOfRange(ws: seq<Option<real>>, a: nat, b: nat)
    requires a <= b <= |ws| && SumOf(ws[a..b]).Ok?
    ensures SumOf(ws[a..b]).value == Known(ws, a, b)
    decreases b
  {
    if b > a {
      assert ws[a..b][..b - a - 1] == ws[a..b - 1];
      SumOfRange(ws, a, b - 1);
    }
  }

  /** `sum()` over a slice, when it succeeds, is the sum of the known sizes in that
      range. */
  lemma SumOfKnown(ws: seq<Option<real>>, a: nat, b: nat)
    requires SumOf(PySlice(ws, a, b)).Ok?
    ensures SumOf(PySlice(ws, a, b)).value == Known(ws, a, b)
  {
    var hi := if b <= |ws| then b else |ws|;
    if a >= hi {
      if a < b {
        KnownPastEnd(ws, a, b);
      }
    } else {
      assert PySlice(ws, a, b) == ws[a..hi];
      SumOfRange(ws, a, hi);
      if hi < b {
        KnownSplit(ws, a, hi, b);
        KnownPastEnd(ws, hi, b);
      }
    }
  }
}
