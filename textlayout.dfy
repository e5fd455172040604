/** Placing a cell's text: the anchor point inside the cell that the box alignment picks,
    the font size scaled from points, the character budget for wrapping, a greedy word
    wrap, and the stacking of the lines upwards from the anchor, last line first. */
module TextLayout {
  import opened Base
  import opened Text
  import opened Units
  import opened Styles

  /** Distance in millimetres between a cell's edge and text anchored to that edge. */
  const Padding: real := 1.0

  /** Nominal font size in points, and the height in millimetres drawn for it. */
  const NominalPoints: real := 12.0
  const NominalHeight: real := 4.13

  /** Width of one character, as a fraction of the font size. */
  const CharWidthRatio: real := 0.45

  /** The horizontal coordinate of the anchor: the cell's left edge plus padding, its
      middle, or its right edge minus padding; 0.0 for an alignment that names none. */
  function AnchorX(box: string, x: real, width: real): real
  {
    if EndsWith(box, "left") then x + Padding
    else if EndsWith(box, "middle") || box == "center" then x + width / 2.0
    else if EndsWith(box, "right") then x + width - Padding
    else 0.0
  }

  /** The vertical coordinate of the anchor. A row height of None (a unit convert_to_mm
      does not know) raises TypeError as soon as the arithmetic needs it. */
  function AnchorY(box: string, y: real, height: Option<real>): Result<real>
  {
    if StartsWith(box, "top") then Ok(y + Padding)
    else if StartsWith(box, "middle") || box == "center" then
      if height.None? then Err(TypeError) else Ok(y + height.value / 2.0)
    else if StartsWith(box, "bottom") then
      if height.None? then Err(TypeError) else Ok(y + height.value - Padding)
    else Ok(0.0)
  }

  predicate IsVertical(v: string) { v == "top" || v == "middle" || v == "bottom" }

  predicate IsHorizontal(h: string) { h == "left" || h == "middle" || h == "right" }

  lemma LabelEnds(v: string, h: string)
    requires IsVertical(v) && IsHorizontal(h) && !(v == "middle" && h == "middle")
    ensures var box := AlignmentLabel(v, h);
      && (EndsWith(box, "left") <==> h == "left")
      && (EndsWith(box, "middle") <==> h == "middle")
      && (EndsWith(box, "right") <==> h == "right")
      && box != "center"
  {
    var head := v + "-";
    var box := head + h;
    EndsWithSuffix(head, h);
    assert box[|box| - 5] == (if h == "left" then '-' else h[|h| - 5]);
    if h == "left" {
      NotEndsWith(box, "middle", 1);
      NotEndsWith(box, "right", 0);
    } else if h == "middle" {
      NotEndsWith(box, "left", 0);
      NotEndsWith(box, "right", 0);
    } else {
      assert box[|box| - 6] == '-';
      NotEndsWith(box, "left", 0);
      NotEndsWith(box, "middle", 0);
    }
  }

  lemma LabelStarts(v: string, h: string)
    requires IsVertical(v) && IsHorizontal(h) && !(v == "middle" && h == "middle")
    ensures var box := AlignmentLabel(v, h);
      && (StartsWith(box, "top") <==> v == "top")
      && (StartsWith(box, "middle") <==> v == "middle")
      && (StartsWith(box, "bottom") <==> v == "bottom")
  {
    var box := v + "-" + h;
    assert box[..|v|] == v;
    assert box[0] == v[0];
  }

  /** For the nine alignments a style can name, the anchor is offset from the matching
      cell edge by the padding, or placed at the middle of the cell. */
  lemma AnchorOfAlignment(v: string, h: string, x: real, y: real, width: real, height: real)
    requires IsVertical(v) && IsHorizontal(h)
    ensures AnchorX(AlignmentLabel(v, h), x, width) ==
      if h == "left" then x + Padding else if h == "middle" then x + width / 2.0 else x + width - Padding
    ensures AnchorY(AlignmentLabel(v, h), y, Some(height)) ==
      Ok(if v == "top" then y + Padding else if v == "middle" then y + height / 2.0 else y + height - Padding)
  {
    if v == "middle" && h == "middle" {
      assert AlignmentLabel(v, h) == "center";
      NotEndsWith("center", "left", 0);
      NotEndsWith("center", "middle", 0);
      NotStartsWith("center", "top", 0);
      NotStartsWith("center", "middle", 0);
    } else {
      LabelEnds(v, h);
      LabelStarts(v, h);
    }
  }

  /** Only a box anchored at the top can do without the row height. */
  lemma AnchorNeedsHeight(v: string, h: string, y: real)
    requires IsVertical(v) && IsHorizontal(h)
    ensures AnchorY(AlignmentLabel(v, h), y, None).Err? <==> v != "top"
  {
    if v == "middle" && h == "middle" {
      assert "center"[0] != "top"[0];
    } else {
      LabelStarts(v, h);
    }
  }

  /** A text alignment outside the translated vocabulary ("justify", say) names no
      horizontal edge, so the anchor falls back to x = 0. */
  lemma UnknownAlignmentAtOrigin(v: string, x: real, width: real)
    requires IsVertical(v)
    ensures AlignmentLabel(v, "justify") == v + "-justify"
    ensures AnchorX(AlignmentLabel(v, "justify"), x, width) == 0.0
  {
    assert "justify"[0] != "middle"[0];
    var box := v + "-" + "justify";
    assert box[|box| - 7..] == "justify";
    NotEndsWith(box, "left", 0);
    NotEndsWith(box, "middle", 0);
    NotEndsWith(box, "right", 0);
    assert |box| != |"center"|;
  }

  /** The font size in millimetres: the number in the style's font-size (its last two
      characters are taken as the unit and ignored), scaled so that 12 gives 4.13. */
  function FontSize(style: Style): Result<real>
  {
    var text := if "font-size" in style then style["font-size"] else "12pt";
    var points :- ParseFloat(NumberPart(text));
    Ok(points / NominalPoints * NominalHeight)
  }

  /** The font size is proportional to the number given, whatever two-letter unit
      follows it; without a font-size the nominal 12 pt gives 4.13. */
  lemma FontSizeScales(style: Style, number: string, unit: string)
    requires |unit| == 2 && ParseFloat(number).Ok?
    requires "font-size" in style && style["font-size"] == number + unit
    ensures FontSize(style) == Ok(ParseFloat(number).value * NominalHeight / NominalPoints)
  {
    assert NumberPart(number + unit) == number;
  }

  lemma FontSizeDefault(style: Style)
    requires "font-size" !in style
    ensures FontSize(style) == Ok(NominalHeight)
  {
    assert Decimal(12) == "12" by {
      assert Decimal(1) == "1";
    }
    ParseFloatOfDecimal(12);
    assert NumberPart("12pt") == "12";
  }

  /** The number of characters that fit in a cell: floor division of its width by the
      character width; a zero character width raises ZeroDivisionError. */
  function WrapWidth(cellWidth: real, fontSize: real): (r: Result<int>)
    ensures r.Err? <==> fontSize == 0.0
    ensures r.Err? ==> r.error == ZeroDivisionError
  {
    var charWidth := fontSize * CharWidthRatio;
    if charWidth == 0.0 then Err(ZeroDivisionError) else Ok((cellWidth / charWidth).Floor)
  }

  /** The budget is the largest number of characters whose width does not exceed the
      cell's. */
  lemma WrapWidthFits(cellWidth: real, fontSize: real)
    requires fontSize > 0.0
    ensures var n := WrapWidth(cellWidth, fontSize).value;
      n as real * (fontSize * CharWidthRatio) <= cellWidth < (n as real + 1.0) * (fontSize * CharWidthRatio)
  {
    var charWidth := fontSize * CharWidthRatio;
    var q := cellWidth / charWidth;
    var n := q.Floor;
    assert charWidth > 0.0;
    assert n as real <= q < n as real + 1.0;
    assert q * charWidth == cellWidth;
    MultiplyBounds(n as real, q, n as real + 1.0, charWidth);
    assert WrapWidth(cellWidth, fontSize) == Ok(n);
  }

  lemma MultiplyBounds(lo: real, q: real, hi: real, c: real)
    requires lo <= q < hi && c > 0.0
    ensures lo * c <= q * c < hi * c
  {
  }

  /** The words of a line: the pieces between spaces, without empty ones. */
  function Words(s: string): (ws: seq<string>)
    ensures forall i :: 0 <= i < |ws| ==> ws[i] != [] && ' ' !in ws[i]
  {
    Nonempty(SplitSpaces(s))
  }

  function SplitSpaces(s: string): (parts: seq<string>)
    ensures forall i :: 0 <= i < |parts| ==> ' ' !in parts[i]
    decreases |s|
  {
    var k := IndexOf(s, ' ');
    if k == |s| then [s]
    else
      assert ' ' !in s[..k] by {
        assert forall i :: 0 <= i < k ==> s[..k][i] == s[i];
      }
      [s[..k]] + SplitSpaces(s[k + 1..])
  }

  function Nonempty(parts: seq<string>): (ws: seq<string>)
    ensures forall i :: 0 <= i < |ws| ==> ws[i] != [] && ws[i] in parts
  {
    if parts == [] then []
    else
      var rest := Nonempty(parts[1..]);
      if parts[0] == [] then rest else [parts[0]] + rest
  }

  /** The length of words joined by single spaces. */
  function LineLength(words: seq<string>): nat
  {
    if words == [] then 0
    else if |words| == 1 then |words[0]|
    else LineLength(words[..|words| - 1]) + 1 + |words[|words| - 1]|
  }

  /** Words joined by single spaces. */
  function Join(words: seq<string>): (s: string)
    ensures |s| == LineLength(words)
  {
    if words == [] then []
    else if |words| == 1 then words[0]
    else Join(words[..|words| - 1]) + " " + words[|words| - 1]
  }

  lemma LineLengthAppend(words: seq<string>, w: string)
    requires words != []
    ensures LineLength(words + [w]) == LineLength(words) + 1 + |w|
  {
    assert (words + [w])[..|words|] == words;
  }

  /** Greedy filling: each word joins the current line when the line stays within the
      width, and otherwise starts the next line; a word longer than the width gets a line
      of its own, since long words are not broken. */
  function Fill(words: seq<string>, width: int, cur: seq<string>): seq<seq<string>>
    decreases |words|
  {
    if words == [] then (if cur == [] then [] else [cur])
    else if cur == [] || LineLength(cur) + 1 + |words[0]| <= width then Fill(words[1..], width, cur + [words[0]])
    else [cur] + Fill(words[1..], width, [words[0]])
  }

  function Flatten(lines: seq<seq<string>>): seq<string>
  {
    if lines == [] then [] else lines[0] + Flatten(lines[1..])
  }

  lemma {:induction false} FlattenAppend(a: seq<seq<string>>, b: seq<seq<string>>)
    ensures Flatten(a + b) == Flatten(a) + Flatten(b)
  {
    if a != [] {
      assert (a + b)[1..] == a[1..] + b;
      FlattenAppend(a[1..], b);
    } else {
      assert a + b == b;
    }
  }

  /** Filling keeps every word, in order. */
  lemma {:induction false} FillKeepsWords(words: seq<string>, width: int, cur: seq<string>)
    ensures Flatten(Fill(words, width, cur)) == cur + words
    decreases |words|
  {
    if words == [] {
      if cur != [] {
        assert Flatten([cur]) == cur + Flatten([cur][1..]);
        assert [cur][1..] == [];
      }
    } else if cur == [] || LineLength(cur) + 1 + |words[0]| <= width {
      FillKeepsWords(words[1..], width, cur + [words[0]]);
      assert cur + [words[0]] + words[1..] == cur + words;
    } else {
      var rest := Fill(words[1..], width, [words[0]]);
      FillKeepsWords(words[1..], width, [words[0]]);
      assert ([cur] + rest)[1..] == rest;
      assert [words[0]] + words[1..] == words;
    }
  }

  /** Every line of the fill holds at least one word and fits the width, unless it is a
      single word too long for any line. */
  lemma {:induction false} FillFits(words: seq<string>, width: int, cur: seq<string>)
    requires cur == [] || LineLength(cur) <= width || |cur| == 1
    ensures forall l :: l in Fill(words, width, cur) ==> l != [] && (LineLength(l) <= width || |l| == 1)
    decreases |words|
  {
    if words == [] {
    } else if cur == [] {
      assert cur + [words[0]] == [words[0]];
      FillFits(words[1..], width, [words[0]]);
    } else if LineLength(cur) + 1 + |words[0]| <= width {
      LineLengthAppend(cur, words[0]);
      FillFits(words[1..], width, cur + [words[0]]);
    } else {
      FillFits(words[1..], width, [words[0]]);
    }
  }

  /** The lines of a fill are made of the words given, and of those of the line begun. */
  lemma {:induction false} FillDrawsFromWords(words: seq<string>, width: int, cur: seq<string>)
    ensures forall l, w :: l in Fill(words, width, cur) && w in l ==> w in cur || w in words
    decreases |words|
  {
    if words != [] {
      if cur == [] || LineLength(cur) + 1 + |words[0]| <= width {
        FillDrawsFromWords(words[1..], width, cur + [words[0]]);
      } else {
        FillDrawsFromWords(words[1..], width, [words[0]]);
      }
      assert forall w :: w in words[1..] ==> w in words;
    }
  }

  /** One paragraph wrapped: textwrap refuses a width below one. */
  function WrapLine(line: string, width: int): (r: Result<seq<string>>)
    ensures r.Err? <==> width <= 0
  {
    if width <= 0 then Err(InvalidWrapWidth(width))
    else Ok(JoinAll(Fill(Words(line), width, [])))
  }

  function JoinAll(lines: seq<seq<string>>): (r: seq<string>)
    ensures |r| == |lines| && forall i :: 0 <= i < |lines| ==> r[i] == Join(lines[i])
  {
    seq(|lines|, i requires 0 <= i < |lines| => Join(lines[i]))
  }

  /** A wrapped paragraph has no line longer than the width, except a line holding one
      word that is longer by itself. */
  lemma WrapLineFits(line: string, width: int)
    requires width > 0
    ensures forall l :: l in WrapLine(line, width).value ==> |l| <= width || ' ' !in l
  {
    var filled := Fill(Words(line), width, []);
    FillFits(Words(line), width, []);
    FillDrawsFromWords(Words(line), width, []);
    var r := WrapLine(line, width).value;
    forall l | l in r ensures |l| <= width || ' ' !in l {
      var i :| 0 <= i < |r| && r[i] == l;
      assert filled[i] in filled;
      if LineLength(filled[i]) > width {
        assert |filled[i]| == 1;
        assert l == filled[i][0];
        assert filled[i][0] in Words(line);
      }
    }
  }

  /** Wrapping keeps the words of the paragraph, in order. */
  lemma WrapLineKeepsWords(line: string, width: int)
    requires width > 0
    ensures Flatten(Fill(Words(line), width, [])) == Words(line)
  {
    FillKeepsWords(Words(line), width, []);
  }

  /** The wrapped lines of every paragraph, in order; each paragraph computes the
      character budget anew, so an empty list raises nothing. */
  function WrapAll(lines: seq<string>, cellWidth: real, fontSize: real): Result<seq<string>>
  {
    if lines == [] then Ok([])
    else
      var before :- WrapAll(lines[..|lines| - 1], cellWidth, fontSize);
      var width :- WrapWidth(cellWidth, fontSize);
      var wrapped :- WrapLine(lines[|lines| - 1], width);
      Ok(before + wrapped)
  }

  /** Wrapping fails exactly when there is a paragraph and the budget is not a positive
      number of characters. */
  lemma {:induction false} WrapAllFails(lines: seq<string>, cellWidth: real, fontSize: real)
    ensures WrapAll(lines, cellWidth, fontSize).Err? <==>
      lines != [] && (fontSize == 0.0 || WrapWidth(cellWidth, fontSize).value <= 0)
  {
    if lines != [] {
      WrapAllFails(lines[..|lines| - 1], cellWidth, fontSize);
    }
  }

  /** One line of a multi-line text: its text, the anchor, and its upward offset in ems
      (the tspan's dy of minus that many em). */
  datatype Line = Line(text: string, x: real, y: real, rise: nat)

  /** The tspans of a block: the lines in reverse order, the k-th of them raised by k em,
      so that the last line sits on the anchor and the first is highest. */
  function Stack(lines: seq<string>, x: real, y: real, k: nat): seq<Line>
  {
    if lines == [] then []
    else [Line(lines[|lines| - 1], x, y, k)] + Stack(lines[..|lines| - 1], x, y, k + 1)
  }

  lemma {:induction false} StackOrder(lines: seq<string>, x: real, y: real, k: nat)
    ensures |Stack(lines, x, y, k)| == |lines|
    ensures forall j :: 0 <= j < |lines| ==> Stack(lines, x, y, k)[j] == Line(lines[|lines| - 1 - j], x, y, k + j)
  {
    if lines != [] {
      var init := lines[..|lines| - 1];
      StackOrder(init, x, y, k + 1);
      forall j | 0 <= j < |lines| ensures Stack(lines, x, y, k)[j] == Line(lines[|lines| - 1 - j], x, y, k + j) {
        if j > 0 {
          assert Stack(lines, x, y, k)[j] == Stack(init, x, y, k + 1)[j - 1];
          assert init[|init| - 1 - (j - 1)] == lines[|lines| - 1 - j];
        }
      }
    }
  }

  /** Read in the order of the text, the i-th line is raised by as many em as there are
      lines after it: consecutive lines are one em apart and the last is on the anchor. */
  lemma StackPlacesLines(lines: seq<string>, x: real, y: real)
    ensures var tspans := Stack(lines, x, y, 0);
      |tspans| == |lines|
      && forall i :: 0 <= i < |lines| ==>
           tspans[|lines| - 1 - i].text == lines[i] && tspans[|lines| - 1 - i].rise == |lines| - 1 - i
  {
    StackOrder(lines, x, y, 0);
  }

  /** The font attributes of a cell's text. */
  datatype Font = Font(size: real, bold: bool, italic: bool)

  /** What the drawing holds: a cell's rectangle, a one-line text at the anchor, or a
      text block of stacked lines. */
  datatype Element =
    | Rect(x: real, y: real, width: real, height: Option<real>)
    | Label(text: string, x: real, y: real, font: Font, alignment: string)
    | Block(font: Font, alignment: string, lines: seq<Line>)

  /** The paragraphs of a cell, upper-cased. */
  function Uppers(paragraphs: seq<string>): (lines: seq<string>)
    ensures |lines| == |paragraphs| && forall i :: 0 <= i < |lines| ==> lines[i] == Upper(paragraphs[i])
  {
    seq(|paragraphs|, i requires 0 <= i < |paragraphs| => Upper(paragraphs[i]))
  }

  /** The text element add_text draws: a single unwrapped paragraph becomes one label at
      the anchor; anything else becomes a block of stacked lines, wrapped first when the
      style asks for it. */
  function TextElement(paragraphs: seq<string>, x: real, y: real, font: Font, box: string, wrap: bool, cellWidth: real): Result<Element>
  {
    var lines := Uppers(paragraphs);
    if |lines| == 1 && !wrap then Ok(Label(lines[0], x, y, font, box))
    else
      var wrapped :- if wrap then WrapAll(lines, cellWidth, font.size) else Ok(lines);
      Ok(Block(font, box, Stack(wrapped, x, y, 0)))
  }

  /** Without wrapping, the block holds the paragraphs' text upper-cased, one line each,
      the last on the anchor; a single paragraph is a label instead. */
  lemma TextElementUnwrapped(paragraphs: seq<string>, x: real, y: real, font: Font, box: string, cellWidth: real)
    ensures var e := TextElement(paragraphs, x, y, font, box, false, cellWidth);
      && e.Ok?
      && (|paragraphs| == 1 <==> e.value.Label?)
      && (e.value.Label? ==> e.value.text == Upper(paragraphs[0]) && e.value.x == x && e.value.y == y)
      && (e.value.Block? ==>
            |e.value.lines| == |paragraphs|
            && forall i :: 0 <= i < |paragraphs| ==>
                 e.value.lines[|paragraphs| - 1 - i] == Line(Upper(paragraphs[i]), x, y, |paragraphs| - 1 - i))
  {
    StackOrder(Uppers(paragraphs), x, y, 0);
  }
}
