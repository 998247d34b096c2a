/** The post-processing pass of `format_html_content` (check_sites.py): the
    prettified markup is split into lines, runs of blank lines are cut down
    to at most two, and the result is re-joined and normalised. Parsing and
    prettifying the markup is a foreign library, given here as `prettify`,
    which yields `None` where the library raises. */
module Formatting {
  import opened Wrappers
  import opened Strings
  import opened Normalize

  /** A whitespace-only line: the lines for which `line.strip() == ""`
      (see `StripEmptyIffAllSpace`). */
  predicate IsBlank(line: string)
  {
    AllSpace(line)
  }

  /** The number of blank lines at the end of `lines`: the value the
      pass's `empty_count` holds after reading them. */
  function TrailingBlanks(lines: seq<string>): (n: nat)
    ensures n <= |lines|
    ensures forall k :: |lines| - n <= k < |lines| ==> IsBlank(lines[k])
    ensures n < |lines| ==> !IsBlank(lines[|lines| - 1 - n])
  {
    if lines != [] && IsBlank(lines[|lines| - 1]) then
      var init := lines[..|lines| - 1];
      var m := TrailingBlanks(init);
      assert forall k :: |init| - m <= k < |init| ==> lines[k] == init[k];
      1 + m
    else 0
  }

  /** The last of `lines` is kept unless it is at least the third blank line in a row. */
  predicate KeepsLast(lines: seq<string>)
    requires lines != []
  {
    !IsBlank(lines[|lines| - 1]) || TrailingBlanks(lines[..|lines| - 1]) < 2
  }

  /** The lines the pass keeps, in order. */
  function Collapsed(lines: seq<string>): seq<string>
  {
    if lines == [] then []
    else Collapsed(lines[..|lines| - 1]) + (if KeepsLast(lines) then [lines[|lines| - 1]] else [])
  }

  /** No three consecutive blank lines. */
  predicate AtMostTwoBlankRun(lines: seq<string>)
  {
    forall i :: 0 <= i && i + 2 < |lines| ==> !(IsBlank(lines[i]) && IsBlank(lines[i + 1]) && IsBlank(lines[i + 2]))
  }

  /** The non-blank lines, in order. */
  function NonBlank(lines: seq<string>): seq<string>
  {
    if lines == [] then []
    else NonBlank(lines[..|lines| - 1]) + (if IsBlank(lines[|lines| - 1]) then [] else [lines[|lines| - 1]])
  }

  /** `sub` is obtained from `lines` by deleting some of them. */
  predicate IsSubsequence(sub: seq<string>, lines: seq<string>)
    decreases |lines|
  {
    if sub == [] then true
    else if lines == [] then false
    else if sub[|sub| - 1] == lines[|lines| - 1] then IsSubsequence(sub[..|sub| - 1], lines[..|lines| - 1])
    else IsSubsequence(sub, lines[..|lines| - 1])
  }

  /** The blank-line pass of `format_html_content`. */
  method CollapseBlankLines(lines: seq<string>) returns (kept: seq<string>)
    ensures kept == Collapsed(lines)
  {
    kept := [];
    var emptyCount := 0;
    for i := 0 to |lines|
      invariant kept == Collapsed(lines[..i])
      invariant emptyCount == TrailingBlanks(lines[..i])
    {
      var line := lines[i];
      assert lines[..i + 1] == lines[..i] + [line];
      CollapsedAppend(lines[..i], line);
      TrailingBlanksAppend(lines[..i], line);
      StripEmptyIffAllSpace(line);
      if Strip(line) == [] {
        emptyCount := emptyCount + 1;
        if emptyCount <= 2 {
          kept := kept + [line];
        }
      } else {
        emptyCount := 0;
        kept := kept + [line];
      }
    }
    assert lines[..|lines|] == lines;
  }

  lemma CollapsedAppend(lines: seq<string>, x: string)
    ensures Collapsed(lines + [x]) == Collapsed(lines) + (if !IsBlank(x) || TrailingBlanks(lines) < 2 then [x] else [])
  {
    assert (lines + [x])[..|lines|] == lines;
  }

  lemma TrailingBlanksAppend(lines: seq<string>, x: string)
    ensures TrailingBlanks(lines + [x]) == if IsBlank(x) then TrailingBlanks(lines) + 1 else 0
  {
    assert (lines + [x])[..|lines|] == lines;
  }

  /** After the pass a text ends in as many blank lines as before, but at most two. */
  lemma {:induction false} CollapsedTrailingBlanks(lines: seq<string>)
    ensures TrailingBlanks(Collapsed(lines)) == if TrailingBlanks(lines) < 2 then TrailingBlanks(lines) else 2
    decreases |lines|
  {
    if lines != [] {
      var init, x := lines[..|lines| - 1], lines[|lines| - 1];
      assert lines == init + [x];
      CollapsedTrailingBlanks(init);
      CollapsedAppend(init, x);
      TrailingBlanksAppend(init, x);
      if KeepsLast(lines) {
        assert Collapsed(lines) == Collapsed(init) + [x];
        TrailingBlanksAppend(Collapsed(init), x);
      } else {
        assert Collapsed(lines) == Collapsed(init);
      }
    }
  }

  /** The pass never leaves more than two blank lines in a row. */
  lemma {:induction false} CollapsedAtMostTwoBlankRun(lines: seq<string>)
    ensures AtMostTwoBlankRun(Collapsed(lines))
    decreases |lines|
  {
    if lines != [] {
      var init, x := lines[..|lines| - 1], lines[|lines| - 1];
      CollapsedAtMostTwoBlankRun(init);
      if KeepsLast(lines) {
        CollapsedTrailingBlanks(init);
        AtMostTwoBlankRunAppend(Collapsed(init), x);
      }
    }
  }

  /** A line may follow a text without three blank lines in a row, unless
      it is blank and the text already ends in two blank lines. */
  lemma AtMostTwoBlankRunAppend(c: seq<string>, x: string)
    requires AtMostTwoBlankRun(c)
    requires IsBlank(x) ==> TrailingBlanks(c) < 2
    ensures AtMostTwoBlankRun(c + [x])
  {
    var r := c + [x];
    forall i | 0 <= i && i + 2 < |r|
      ensures !(IsBlank(r[i]) && IsBlank(r[i + 1]) && IsBlank(r[i + 2]))
    {
      if i + 2 < |c| {
        assert r[i] == c[i] && r[i + 1] == c[i + 1] && r[i + 2] == c[i + 2];
      } else if IsBlank(x) {
        NotTwoTrailingBlanks(c);
        assert r[i] == c[|c| - 2] && r[i + 1] == c[|c| - 1];
      }
    }
  }

  lemma NotTwoTrailingBlanks(c: seq<string>)
    requires |c| >= 2 && TrailingBlanks(c) < 2
    ensures !(IsBlank(c[|c| - 2]) && IsBlank(c[|c| - 1]))
  {
    var init := c[..|c| - 1];
    assert init[|init| - 1] == c[|c| - 2];
    if IsBlank(c[|c| - 1]) {
      assert TrailingBlanks(c) == 1 + TrailingBlanks(init);
    }
  }

  /** Every non-blank line is kept, and in order. */
  lemma {:induction false} CollapsedKeepsContent(lines: seq<string>)
    ensures NonBlank(Collapsed(lines)) == NonBlank(lines)
    decreases |lines|
  {
    if lines != [] {
      var init, x := lines[..|lines| - 1], lines[|lines| - 1];
      CollapsedKeepsContent(init);
      var c := Collapsed(init);
      if KeepsLast(lines) {
        assert Collapsed(lines) == c + [x];
        assert (c + [x])[..|c|] == c;
        assert NonBlank(c + [x]) == NonBlank(c) + (if IsBlank(x) then [] else [x]);
      } else {
        assert Collapsed(lines) == c;
      }
    }
  }

  lemma {:induction false} SubsequenceDropLast(sub: seq<string>, lines: seq<string>)
    requires sub != [] && IsSubsequence(sub, lines)
    ensures IsSubsequence(sub[..|sub| - 1], lines)
    decreases |lines|
  {
    var sub', lines' := sub[..|sub| - 1], lines[..|lines| - 1];
    if sub' != [] {
      if sub[|sub| - 1] == lines[|lines| - 1] {
        if sub'[|sub'| - 1] == lines[|lines| - 1] {
          SubsequenceDropLast(sub', lines');
        }
      } else {
        SubsequenceDropLast(sub, lines');
        if sub'[|sub'| - 1] == lines[|lines| - 1] {
          SubsequenceDropLast(sub', lines');
        }
      }
    }
  }

  /** The kept lines are a subsequence of the input lines. */
  lemma {:induction false} CollapsedSubsequence(lines: seq<string>)
    ensures IsSubsequence(Collapsed(lines), lines)
    decreases |lines|
  {
    if lines != [] {
      var init, x := lines[..|lines| - 1], lines[|lines| - 1];
      CollapsedSubsequence(init);
      var c := Collapsed(init);
      if KeepsLast(lines) {
        assert (c + [x])[..|c|] == c;
      } else {
        assert Collapsed(lines) == c;
        if c != [] && c[|c| - 1] == x {
          SubsequenceDropLast(c, init);
        }
      }
    }
  }

  /** The pass leaves alone exactly the texts with no three blank lines in a row. */
  lemma {:induction false} CollapsedFixedPoint(lines: seq<string>)
    ensures Collapsed(lines) == lines <==> AtMostTwoBlankRun(lines)
    decreases |lines|
  {
    if Collapsed(lines) == lines {
      CollapsedAtMostTwoBlankRun(lines);
    }
    if lines != [] && AtMostTwoBlankRun(lines) {
      var init, x := lines[..|lines| - 1], lines[|lines| - 1];
      assert AtMostTwoBlankRun(init) by {
        forall i | 0 <= i && i + 2 < |init|
          ensures !(IsBlank(init[i]) && IsBlank(init[i + 1]) && IsBlank(init[i + 2]))
        {
          assert init[i] == lines[i] && init[i + 1] == lines[i + 1] && init[i + 2] == lines[i + 2];
        }
      }
      CollapsedFixedPoint(init);
      assert lines == init + [x];
    }
  }

  /** Running the pass twice gives what running it once does. */
  lemma CollapsedIdempotent(lines: seq<string>)
    ensures Collapsed(Collapsed(lines)) == Collapsed(lines)
  {
    CollapsedAtMostTwoBlankRun(lines);
    CollapsedFixedPoint(Collapsed(lines));
  }

  /** What `format_html_content` returns: the input itself when the markup
      library raises, otherwise the prettified text with long blank runs
      cut, re-joined with LF and normalised. */
  function FormattedMarkup(prettify: string -> Option<string>, html: string): string
  {
    match prettify(html)
    case None => html
    case Some(pretty) => NormalizeText(Join(Collapsed(SplitLines(pretty)), "\n"))
  }

  /** `format_html_content`. */
  method FormatHtmlContent(prettify: string -> Option<string>, html: string) returns (r: string)
    ensures r == FormattedMarkup(prettify, html)
    ensures prettify(html).None? ==> r == html
    ensures prettify(html).Some? ==> IsStripped(r)
  {
    var pretty := prettify(html);
    if pretty.None? {
      return html;
    }
    var lines := CollapseBlankLines(SplitLines(pretty.value));
    r := NormalizeText(Join(lines, "\n"));
  }

  /** Formatting keeps text that was already stripped stripped. */
  lemma FormattedMarkupStripped(prettify: string -> Option<string>, html: string)
    requires IsStripped(html)
    ensures IsStripped(FormattedMarkup(prettify, html))
  {
  }
}
