/** The layout computed by `diff_to_image` (check_sites.py): which lines are
    drawn, where, in which colour, and how large the canvas is. Fonts are
    abstract: `measure` gives the width of a text and `letterHeight` the
    height of the letter "A"; pixels and the image file are not modelled. */
module Rendering {
  import opened Strings
  import opened Wrapping

  /** A colour as red, green and blue components. */
  datatype Rgb = Rgb(red: int, green: int, blue: int)

  const Green := Rgb(0, 128, 0)
  const Red := Rgb(255, 0, 0)
  const Blue := Rgb(0, 0, 255)
  const Black := Rgb(0, 0, 0)

  /** One line of text drawn at the left margin, `y` pixels from the top. */
  datatype Row = Row(text: string, y: int, fill: Rgb)

  /** The image: its size and the rows drawn on a white background. */
  datatype Canvas = Canvas(width: int, height: int, rows: seq<Row>)

  const LeftMargin := 10
  const RightMargin := 10
  const Top := 10
  const MaxHeight := 2000
  /** Defaults of `diff_to_image`'s keyword parameters. */
  const DefaultMinWidth := 400
  const DefaultMaxWidth := 1200
  const DefaultLineHeightPad := 8

  function Min(a: int, b: int): int { if a <= b then a else b }
  function Max(a: int, b: int): int { if a >= b then a else b }

  /** The colour of a diff line, chosen by its first character: additions
      green, removals red, hunk headers blue, anything else black. */
  function Fill(line: string): (c: Rgb)
    ensures c == Green <==> StartsWith(line, "+")
    ensures c == Red <==> StartsWith(line, "-")
    ensures c == Blue <==> StartsWith(line, "@")
    ensures c == Black <==> !(StartsWith(line, "+") || StartsWith(line, "-") || StartsWith(line, "@"))
  {
    if StartsWith(line, "+") then Green
    else if StartsWith(line, "-") then Red
    else if StartsWith(line, "@") then Blue
    else Black
  }

  /** What one input line becomes: itself when it fits in `budget`,
      otherwise its wrapped lines. */
  function Segment(line: string, measure: string -> int, budget: int): seq<string>
  {
    if measure(line) > budget then Wrap(line, measure, budget) else [line]
  }

  /** The lines `expand` makes of each of `lines`, in order. */
  function FlatMap(lines: seq<string>, expand: string -> seq<string>): seq<string>
  {
    if lines == [] then []
    else FlatMap(lines[..|lines| - 1], expand) + expand(lines[|lines| - 1])
  }

  /** The lines to draw, `processed_lines`. */
  function Processed(lines: seq<string>, measure: string -> int, budget: int): seq<string>
  {
    FlatMap(lines, line => Segment(line, measure, budget))
  }

  /** The widest of `lines` as measured, or 0 when there is none wider. */
  function Widest(lines: seq<string>, measure: string -> int): int
  {
    if lines == [] then 0 else Max(Widest(lines[..|lines| - 1], measure), measure(lines[|lines| - 1]))
  }

  /** The rows drawn from `lines`, the first at height `y`, each next one
      `lineHeight` lower. */
  function DrawFrom(lines: seq<string>, y: int, lineHeight: int): seq<Row>
    decreases |lines|
  {
    if lines == [] then [] else [Row(lines[0], y, Fill(lines[0]))] + DrawFrom(lines[1..], y + lineHeight, lineHeight)
  }

  /** The image `diff_to_image` draws for `diffText`. */
  function Render(diffText: string, measure: string -> int, letterHeight: int,
                  minWidth: int, maxWidth: int, lineHeightPad: int): (c: Canvas)
    ensures c.height <= MaxHeight
    ensures minWidth <= maxWidth ==> minWidth <= c.width <= maxWidth
  {
    var lineHeight := letterHeight + lineHeightPad;
    var lines := Processed(SplitLines(diffText), measure, maxWidth - LeftMargin - RightMargin);
    var height := Min(lineHeight * |lines| + 20, MaxHeight);
    var width := Min(Max(Widest(lines, measure) + LeftMargin + RightMargin, minWidth), maxWidth);
    Canvas(width, height, DrawFrom(lines, Top, lineHeight))
  }

  lemma FlatMapAppend(lines: seq<string>, x: string, expand: string -> seq<string>)
    ensures FlatMap(lines + [x], expand) == FlatMap(lines, expand) + expand(x)
  {
    assert (lines + [x])[..|lines|] == lines;
  }

  lemma ProcessedAppend(lines: seq<string>, x: string, measure: string -> int, budget: int)
    ensures Processed(lines + [x], measure, budget) == Processed(lines, measure, budget) + Segment(x, measure, budget)
  {
    FlatMapAppend(lines, x, line => Segment(line, measure, budget));
  }

  /** The first loop of `diff_to_image`: lines wider than `budget` are
      replaced by their wrapped lines. */
  method ProcessLines(source: seq<string>, measure: string -> int, budget: int) returns (processed: seq<string>)
    ensures processed == Processed(source, measure, budget)
  {
    processed := [];
    for i := 0 to |source|
      invariant processed == Processed(source[..i], measure, budget)
    {
      var line := source[i];
      assert source[..i + 1] == source[..i] + [line];
      ProcessedAppend(source[..i], line, measure, budget);
      if measure(line) > budget {
        var wrapped := WrapLine(line, measure, budget);
        processed := processed + wrapped;
      } else {
        processed := processed + [line];
      }
    }
    assert source[..|source|] == source;
  }

  /** The second loop of `diff_to_image`, which finds `max_line_width`. */
  method MaxLineWidth(lines: seq<string>, measure: string -> int) returns (maxLineWidth: int)
    ensures maxLineWidth == Widest(lines, measure)
  {
    maxLineWidth := 0;
    for i := 0 to |lines|
      invariant maxLineWidth == Widest(lines[..i], measure)
    {
      assert lines[..i + 1][..i] == lines[..i];
      var width := measure(lines[i]);
      if width > maxLineWidth {
        maxLineWidth := width;
      }
    }
    assert lines[..|lines|] == lines;
  }

  /** The drawing loop of `diff_to_image`, advancing `y` by a line height
      per line. */
  method DrawRows(lines: seq<string>, lineHeight: int) returns (rows: seq<Row>)
    ensures rows == DrawFrom(lines, Top, lineHeight)
  {
    rows := [];
    var y := Top;
    for i := 0 to |lines|
      invariant rows + DrawFrom(lines[i..], y, lineHeight) == DrawFrom(lines, Top, lineHeight)
    {
      var line := lines[i];
      assert lines[i..][1..] == lines[i + 1..];
      rows := rows + [Row(line, y, Fill(line))];
      y := y + lineHeight;
    }
  }

  /** `diff_to_image`, up to the drawing calls: it returns the canvas it
      would save. */
  method DiffToImage(diffText: string, measure: string -> int, letterHeight: int,
                     minWidth: int, maxWidth: int, lineHeightPad: int) returns (canvas: Canvas)
    ensures canvas == Render(diffText, measure, letterHeight, minWidth, maxWidth, lineHeightPad)
  {
    var maxContentWidth := maxWidth - LeftMargin - RightMargin;
    var lineHeight := letterHeight + lineHeightPad;
    var processed := ProcessLines(SplitLines(diffText), measure, maxContentWidth);
    var height := Min(lineHeight * |processed| + 20, MaxHeight);
    var maxLineWidth := MaxLineWidth(processed, measure);
    var width := Min(Max(maxLineWidth + LeftMargin + RightMargin, minWidth), maxWidth);
    var rows := DrawRows(processed, lineHeight);
    canvas := Canvas(width, height, rows);
  }

  /** Row `i` shows line `i`, at `i` line heights below the first. */
  lemma {:induction false} DrawFromAt(lines: seq<string>, y: int, lineHeight: int, i: nat)
    requires i < |lines|
    ensures |DrawFrom(lines, y, lineHeight)| == |lines|
    ensures DrawFrom(lines, y, lineHeight)[i] == Row(lines[i], y + i * lineHeight, Fill(lines[i]))
    decreases i
  {
    if i > 0 {
      DrawFromAt(lines[1..], y + lineHeight, lineHeight, i - 1);
    } else {
      DrawFromLength(lines, y, lineHeight);
    }
  }

  lemma {:induction false} DrawFromLength(lines: seq<string>, y: int, lineHeight: int)
    ensures |DrawFrom(lines, y, lineHeight)| == |lines|
    decreases |lines|
  {
    if lines != [] {
      DrawFromLength(lines[1..], y + lineHeight, lineHeight);
    }
  }

  /** The rows of the image are the processed lines, in order, line `i` at
      `Top + i * lineHeight` in the colour of its first character. */
  lemma RenderRows(diffText: string, measure: string -> int, letterHeight: int,
                   minWidth: int, maxWidth: int, lineHeightPad: int, i: nat)
    requires i < |Processed(SplitLines(diffText), measure, maxWidth - LeftMargin - RightMargin)|
    ensures var lines := Processed(SplitLines(diffText), measure, maxWidth - LeftMargin - RightMargin);
            var c := Render(diffText, measure, letterHeight, minWidth, maxWidth, lineHeightPad);
            |c.rows| == |lines| &&
            c.rows[i] == Row(lines[i], Top + i * (letterHeight + lineHeightPad), Fill(lines[i]))
  {
    var lines := Processed(SplitLines(diffText), measure, maxWidth - LeftMargin - RightMargin);
    DrawFromAt(lines, Top, letterHeight + lineHeightPad, i);
  }

  /** The canvas is as tall as the rows need plus margins, up to 2000. */
  lemma RenderHeight(diffText: string, measure: string -> int, letterHeight: int,
                     minWidth: int, maxWidth: int, lineHeightPad: int)
    ensures var n := |Processed(SplitLines(diffText), measure, maxWidth - LeftMargin - RightMargin)|;
            var h := (letterHeight + lineHeightPad) * n + 20;
            Render(diffText, measure, letterHeight, minWidth, maxWidth, lineHeightPad).height == if h <= MaxHeight then h else MaxHeight
  {
  }

  /** `Widest` is the largest measured width, or 0. */
  lemma {:induction false} WidestIsMaximum(lines: seq<string>, measure: string -> int)
    ensures Widest(lines, measure) >= 0
    ensures forall i :: 0 <= i < |lines| ==> measure(lines[i]) <= Widest(lines, measure)
    ensures Widest(lines, measure) == 0 || exists i :: 0 <= i < |lines| && measure(lines[i]) == Widest(lines, measure)
    decreases |lines|
  {
    if lines != [] {
      var init := lines[..|lines| - 1];
      WidestIsMaximum(init, measure);
      forall i | 0 <= i < |lines| ensures measure(lines[i]) <= Widest(lines, measure) {
        if i < |init| {
          assert lines[i] == init[i];
        }
      }
      if Widest(lines, measure) != 0 && Widest(lines, measure) != measure(lines[|lines| - 1]) {
        var j :| 0 <= j < |init| && measure(init[j]) == Widest(init, measure);
        assert lines[j] == init[j];
      }
    }
  }

  /** With the source's margins, a canvas narrower than `maxWidth` shows
      every processed line in full: it is at least 20 pixels wider than the
      widest of them. */
  lemma RenderWidthFits(diffText: string, measure: string -> int, letterHeight: int,
                        minWidth: int, maxWidth: int, lineHeightPad: int, i: nat)
    requires i < |Processed(SplitLines(diffText), measure, maxWidth - LeftMargin - RightMargin)|
    requires Render(diffText, measure, letterHeight, minWidth, maxWidth, lineHeightPad).width < maxWidth
    ensures measure(Processed(SplitLines(diffText), measure, maxWidth - LeftMargin - RightMargin)[i]) + LeftMargin + RightMargin
            <= Render(diffText, measure, letterHeight, minWidth, maxWidth, lineHeightPad).width
  {
    WidestIsMaximum(Processed(SplitLines(diffText), measure, maxWidth - LeftMargin - RightMargin), measure);
  }

  /** Processing keeps every visible character of the diff, in order. */
  lemma {:induction false} ProcessedKeepsVisible(lines: seq<string>, measure: string -> int, budget: int)
    ensures Visible(Concat(Processed(lines, measure, budget))) == Visible(Concat(lines))
    decreases |lines|
  {
    if lines != [] {
      var init, x := lines[..|lines| - 1], lines[|lines| - 1];
      ProcessedKeepsVisible(init, measure, budget);
      var seg := Segment(x, measure, budget);
      assert Visible(Concat(seg)) == Visible(x) by {
        if measure(x) > budget {
          WrapKeepsVisible(x, measure, budget);
        } else {
          assert Concat(seg) == x + "";
          assert x + "" == x;
        }
      }
      ConcatAppend(Processed(init, measure, budget), seg);
      ConcatAppend(init, [x]);
      assert lines == init + [x];
      assert Concat([x]) == x + "";
      assert x + "" == x;
      VisibleAppend(Concat(Processed(init, measure, budget)), Concat(seg));
      VisibleAppend(Concat(init), x);
    }
  }

  /** When every line fits, the lines are drawn exactly as given. */
  lemma {:induction false} ProcessedNarrow(lines: seq<string>, measure: string -> int, budget: int)
    requires forall i :: 0 <= i < |lines| ==> measure(lines[i]) <= budget
    ensures Processed(lines, measure, budget) == lines
    decreases |lines|
  {
    if lines != [] {
      var init := lines[..|lines| - 1];
      assert forall i :: 0 <= i < |init| ==> init[i] == lines[i];
      ProcessedNarrow(init, measure, budget);
      assert lines == init + [lines[|lines| - 1]];
    }
  }

  lemma {:induction false} FlatMapSplit(a: seq<string>, b: seq<string>, expand: string -> seq<string>)
    ensures FlatMap(a + b, expand) == FlatMap(a, expand) + FlatMap(b, expand)
    decreases |b|
  {
    if b == [] {
      assert a + b == a;
    } else {
      var init, x := b[..|b| - 1], b[|b| - 1];
      assert a + b == (a + init) + [x];
      assert b == init + [x];
      FlatMapSplit(a, init, expand);
      FlatMapAppend(a + init, x, expand);
      FlatMapAppend(init, x, expand);
    }
  }

  /** A wide line is replaced by its wrapped lines, in place: the lines
      before it and after it are processed independently. */
  lemma ProcessedSplit(a: seq<string>, b: seq<string>, measure: string -> int, budget: int)
    ensures Processed(a + b, measure, budget) == Processed(a, measure, budget) + Processed(b, measure, budget)
  {
    FlatMapSplit(a, b, line => Segment(line, measure, budget));
  }
}
