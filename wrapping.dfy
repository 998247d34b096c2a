/** `wrap_line` (check_sites.py): split a line into tokens, each whitespace
    character alone and each maximal run of other characters together, then
    pack the tokens greedily into lines no wider than `maxWidth` as measured
    by the font. The font's measurement is the parameter `measure`. */
module Wrapping {
  import opened Strings

  /** One whitespace character, or a non-empty run without whitespace. */
  predicate IsToken(t: string)
  {
    (|t| == 1 && IsSpace(t[0])) || (t != [] && NoSpace(t))
  }

  /** The longest prefix of `s` without whitespace. */
  function Word(s: string): (w: string)
    ensures |w| <= |s| && w == s[..|w|]
    ensures NoSpace(w)
    ensures |w| < |s| ==> IsSpace(s[|w|])
  {
    if s == [] || IsSpace(s[0]) then [] else [s[0]] + Word(s[1..])
  }

  /** The tokens of `line`, in order. */
  function Tokenize(line: string): seq<string>
    decreases |line|
  {
    if line == [] then []
    else if IsSpace(line[0]) then [[line[0]]] + Tokenize(line[1..])
    else
      var w := Word(line);
      [w] + Tokenize(line[|w|..])
  }

  /** Every token is one whitespace character or a word without whitespace. */
  lemma {:induction false} TokenizeTokens(line: string)
    ensures forall i :: 0 <= i < |Tokenize(line)| ==> IsToken(Tokenize(line)[i])
    decreases |line|
  {
    if line != [] {
      var n := if IsSpace(line[0]) then 1 else |Word(line)|;
      TokenizeTokens(line[n..]);
      if IsSpace(line[0]) {
        assert line[..1] == [line[0]];
      }
      var t := Tokenize(line);
      assert t == [line[..n]] + Tokenize(line[n..]);
      forall i | 0 <= i < |t| ensures IsToken(t[i]) {
        if i > 0 {
          assert t[i] == Tokenize(line[n..])[i - 1];
        }
      }
    }
  }

  /** Concatenating the tokens gives back the line. */
  lemma {:induction false} TokenizeConcat(line: string)
    ensures Concat(Tokenize(line)) == line
    decreases |line|
  {
    if line != [] {
      var t := Tokenize(line);
      var n := if IsSpace(line[0]) then 1 else |Word(line)|;
      TokenizeConcat(line[n..]);
      if IsSpace(line[0]) {
        assert line[..1] == [line[0]];
      }
      assert t == [line[..n]] + Tokenize(line[n..]);
      assert Concat(t) == line[..n] + Concat(Tokenize(line[n..]));
      assert line == line[..n] + line[n..];
    }
  }

  /** A line that starts with whitespace starts with a whitespace token. */
  lemma TokenizeLeadingSpace(line: string)
    requires line != [] && IsSpace(line[0])
    ensures Tokenize(line) != [] && !NoSpace(Tokenize(line)[0])
  {
    var t := Tokenize(line)[0];
    assert t == [line[0]];
    assert IsSpace(t[0]);
  }

  /** Runs of non-whitespace are maximal: no two word tokens are adjacent. */
  lemma {:induction false} TokenizeMaximal(line: string)
    ensures forall i :: 0 <= i && i + 1 < |Tokenize(line)| ==>
      !(NoSpace(Tokenize(line)[i]) && NoSpace(Tokenize(line)[i + 1]))
    decreases |line|
  {
    if line != [] {
      var n := if IsSpace(line[0]) then 1 else |Word(line)|;
      var rest := line[n..];
      TokenizeMaximal(rest);
      var t := Tokenize(line);
      assert t == [t[0]] + Tokenize(rest);
      if IsSpace(line[0]) {
        TokenizeLeadingSpace(line);
      } else if rest != [] {
        TokenizeLeadingSpace(rest);
      }
      forall i | 0 <= i && i + 1 < |t| ensures !(NoSpace(t[i]) && NoSpace(t[i + 1])) {
        if i > 0 {
          assert t[i] == Tokenize(rest)[i - 1] && t[i + 1] == Tokenize(rest)[i];
        }
      }
    }
  }

  lemma {:induction false} WordOfWordThenBreak(w: string, rest: string)
    requires NoSpace(w)
    requires rest == [] || IsSpace(rest[0])
    ensures Word(w + rest) == w
    decreases |w|
  {
    if w == [] {
      assert w + rest == rest;
    } else {
      assert (w + rest)[1..] == w[1..] + rest;
      WordOfWordThenBreak(w[1..], rest);
      assert w == [w[0]] + w[1..];
    }
  }

  /** A word followed by whitespace or by nothing is one token. */
  lemma TokenizeWordThenBreak(w: string, rest: string)
    requires w != [] && NoSpace(w)
    requires rest == [] || IsSpace(rest[0])
    ensures Tokenize(w + rest) == [w] + Tokenize(rest)
  {
    WordOfWordThenBreak(w, rest);
    assert (w + rest)[|w|..] == rest;
  }

  /** The greedy packing of `tokens` onto lines, `current` being the line
      under construction. A line is closed, with its trailing whitespace
      stripped, when it is not empty and the next token would make it wider
      than `maxWidth`. */
  function Pack(tokens: seq<string>, measure: string -> int, maxWidth: int, current: string): seq<string>
    decreases |tokens|
  {
    if tokens == [] then (if current != [] then [RStrip(current)] else [])
    else
      var test := current + tokens[0];
      if current != [] && measure(test) > maxWidth then [RStrip(current)] + Pack(tokens[1..], measure, maxWidth, tokens[0])
      else Pack(tokens[1..], measure, maxWidth, test)
  }

  /** What `wrap_line(line, font, maxWidth)` returns. */
  function Wrap(line: string, measure: string -> int, maxWidth: int): seq<string>
  {
    Pack(Tokenize(line), measure, maxWidth, "")
  }

  lemma TokenizeSpace(c: char, rest: string)
    requires IsSpace(c)
    ensures Tokenize([c] + rest) == [[c]] + Tokenize(rest)
  {
    assert ([c] + rest)[1..] == rest;
  }

  /** A whitespace character met with no word pending becomes its own token. */
  lemma SplitTokensSpaceStep(line: string, i: nat, words: seq<string>)
    requires i < |line| && IsSpace(line[i])
    requires words + Tokenize(line[i..]) == Tokenize(line)
    ensures words + [[line[i]]] + Tokenize(line[i + 1..]) == Tokenize(line)
  {
    var c, rest := line[i], line[i + 1..];
    assert line[i..] == [c] + rest;
    TokenizeSpace(c, rest);
  }

  /** A whitespace character ends the pending word, then becomes its own token. */
  lemma SplitTokensWordStep(line: string, i: nat, words: seq<string>, word: string)
    requires i < |line| && IsSpace(line[i]) && NoSpace(word) && word != []
    requires words + Tokenize(word + line[i..]) == Tokenize(line)
    ensures words + [word] + [[line[i]]] + Tokenize(line[i + 1..]) == Tokenize(line)
  {
    var c, rest, tail := line[i], line[i + 1..], line[i..];
    assert tail == [c] + rest;
    TokenizeWordThenBreak(word, tail);
    TokenizeSpace(c, rest);
    var after := Tokenize(rest);
    assert words + [word] + [[c]] + after == words + ([word] + ([[c]] + after));
  }

  /** How the first loop of `wrap_line` reads a whitespace character: the
      pending word, if any, and then the character become tokens. */
  lemma SplitTokensBreakStep(line: string, i: nat, words: seq<string>, word: string)
    requires i < |line| && IsSpace(line[i]) && NoSpace(word)
    requires words + Tokenize(word + line[i..]) == Tokenize(line)
    ensures (if word != [] then words + [word] + [[line[i]]] else words + [[line[i]]]) + Tokenize([] + line[i + 1..]) == Tokenize(line)
  {
    assert [] + line[i + 1..] == line[i + 1..];
    if word != [] {
      SplitTokensWordStep(line, i, words, word);
    } else {
      assert word + line[i..] == line[i..];
      SplitTokensSpaceStep(line, i, words);
    }
  }

  /** How the first loop of `wrap_line` reads any other character: it
      extends the pending word. */
  lemma SplitTokensCharStep(line: string, i: nat, word: string)
    requires i < |line| && !IsSpace(line[i]) && NoSpace(word)
    ensures NoSpace(word + [line[i]])
    ensures word + line[i..] == (word + [line[i]]) + line[i + 1..]
  {
    assert line[i..] == [line[i]] + line[i + 1..];
  }

  /** The first loop of `wrap_line`, which builds its `words`. */
  method SplitTokens(line: string) returns (words: seq<string>)
    ensures words == Tokenize(line)
  {
    words := [];
    var currentWord := "";
    assert currentWord + line[0..] == line;
    for i := 0 to |line|
      invariant NoSpace(currentWord)
      invariant words + Tokenize(currentWord + line[i..]) == Tokenize(line)
    {
      var c := line[i];
      if IsSpace(c) {
        SplitTokensBreakStep(line, i, words, currentWord);
        if currentWord != "" {
          words := words + [currentWord] + [[c]];
        } else {
          words := words + [[c]];
        }
        currentWord := "";
      } else {
        SplitTokensCharStep(line, i, currentWord);
        currentWord := currentWord + [c];
      }
    }
    assert currentWord + line[|line|..] == currentWord;
    if currentWord != "" {
      TokenizeWordThenBreak(currentWord, []);
      assert currentWord + [] == currentWord;
      words := words + [currentWord];
    }
  }

  /** `wrap_line`. */
  method WrapLine(line: string, measure: string -> int, maxWidth: int) returns (wrapped: seq<string>)
    ensures wrapped == Wrap(line, measure, maxWidth)
  {
    var words := SplitTokens(line);
    wrapped := [];
    var currentLine := "";
    for i := 0 to |words|
      invariant wrapped + Pack(words[i..], measure, maxWidth, currentLine) == Wrap(line, measure, maxWidth)
    {
      var word := words[i];
      assert words[i..][1..] == words[i + 1..];
      var testLine := currentLine + word;
      if currentLine != "" && measure(testLine) > maxWidth {
        wrapped := wrapped + [RStrip(currentLine)];
        currentLine := word;
      } else {
        currentLine := testLine;
      }
    }
    if currentLine != "" {
      wrapped := wrapped + [RStrip(currentLine)];
    }
  }

  /** Wrapping loses no visible character and reorders none. */
  lemma {:induction false} PackKeepsVisible(tokens: seq<string>, measure: string -> int, maxWidth: int, current: string)
    ensures Visible(Concat(Pack(tokens, measure, maxWidth, current))) == Visible(current + Concat(tokens))
    decreases |tokens|
  {
    var out := Pack(tokens, measure, maxWidth, current);
    if tokens == [] {
      assert current + Concat(tokens) == current;
      if current != [] {
        assert out == [RStrip(current)];
        assert [RStrip(current)][1..] == [];
        assert Concat(out) == RStrip(current) + "";
        assert RStrip(current) + "" == RStrip(current);
        VisibleRStrip(current);
      }
    } else {
      var t, rest := tokens[0], tokens[1..];
      assert Concat(tokens) == t + Concat(rest);
      assert current + Concat(tokens) == (current + t) + Concat(rest);
      if current != [] && measure(current + t) > maxWidth {
        var tail := Pack(rest, measure, maxWidth, t);
        PackKeepsVisible(rest, measure, maxWidth, t);
        assert out == [RStrip(current)] + tail;
        assert Concat(out) == RStrip(current) + Concat(tail);
        VisibleAppend(RStrip(current), Concat(tail));
        VisibleRStrip(current);
        VisibleAppend(current, t + Concat(rest));
      } else {
        PackKeepsVisible(rest, measure, maxWidth, current + t);
      }
    }
  }

  lemma WrapKeepsVisible(line: string, measure: string -> int, maxWidth: int)
    ensures Visible(Concat(Wrap(line, measure, maxWidth))) == Visible(line)
  {
    PackKeepsVisible(Tokenize(line), measure, maxWidth, "");
    TokenizeConcat(line);
    assert "" + line == line;
  }

  /** No line of the output ends in whitespace. */
  predicate NoTrailingSpace(lines: seq<string>)
  {
    forall i :: 0 <= i < |lines| ==> lines[i] == [] || !IsSpace(lines[i][|lines[i]| - 1])
  }

  lemma {:induction false} PackNoTrailingSpace(tokens: seq<string>, measure: string -> int, maxWidth: int, current: string)
    ensures NoTrailingSpace(Pack(tokens, measure, maxWidth, current))
    decreases |tokens|
  {
    if tokens != [] {
      var t, rest := tokens[0], tokens[1..];
      if current != [] && measure(current + t) > maxWidth {
        PackNoTrailingSpace(rest, measure, maxWidth, t);
      } else {
        PackNoTrailingSpace(rest, measure, maxWidth, current + t);
      }
    }
  }

  lemma WrapNoTrailingSpace(line: string, measure: string -> int, maxWidth: int)
    ensures NoTrailingSpace(Wrap(line, measure, maxWidth))
  {
    PackNoTrailingSpace(Tokenize(line), measure, maxWidth, "");
  }

  /** Every output line holds at least one token. */
  lemma {:induction false} PackCount(tokens: seq<string>, measure: string -> int, maxWidth: int, current: string)
    ensures |Pack(tokens, measure, maxWidth, current)| <= |tokens| + (if current == [] then 0 else 1)
    decreases |tokens|
  {
    if tokens != [] {
      var t, rest := tokens[0], tokens[1..];
      if current != [] && measure(current + t) > maxWidth {
        PackCount(rest, measure, maxWidth, t);
      } else {
        PackCount(rest, measure, maxWidth, current + t);
      }
    }
  }

  /** There are never more output lines than tokens; an empty line gives none. */
  lemma WrapCount(line: string, measure: string -> int, maxWidth: int)
    ensures |Wrap(line, measure, maxWidth)| <= |Tokenize(line)|
    ensures line == [] ==> Wrap(line, measure, maxWidth) == []
  {
    PackCount(Tokenize(line), measure, maxWidth, "");
  }

  /** A line that is one word comes out as that line, however wide. */
  lemma WrapSingleWord(line: string, measure: string -> int, maxWidth: int)
    requires line != [] && NoSpace(line)
    ensures Wrap(line, measure, maxWidth) == [line]
  {
    TokenizeWordThenBreak(line, []);
    assert line + [] == line;
    assert Tokenize([]) == [];
    assert Tokenize(line) == [line];
    assert "" + line == line;
    assert [line][1..] == [];
    assert Pack([line], measure, maxWidth, "") == Pack([], measure, maxWidth, line);
    assert RStrip(line) == line;
  }

  /** `t` occurs in `s` as a contiguous piece. */
  predicate Contains(s: string, t: string)
  {
    exists i, j :: 0 <= i <= j <= |s| && s[i..j] == t
  }

  /** Stripping trailing whitespace keeps every word the text contains. */
  lemma RStripKeepsWord(s: string, t: string)
    requires t != [] && NoSpace(t) && Contains(s, t)
    ensures Contains(RStrip(s), t)
  {
    var i, j :| 0 <= i <= j <= |s| && s[i..j] == t;
    RStripPrefix(s);
    var r := RStrip(s);
    assert s[j - 1] == t[|t| - 1];
    RStripKeepsVisibleAt(s, j - 1);
    assert r[i..j] == s[i..j];
  }

  /** Stripping trailing whitespace keeps every position up to the last
      non-whitespace character. */
  lemma {:induction false} RStripKeepsVisibleAt(s: string, p: nat)
    requires p < |s| && !IsSpace(s[p])
    ensures p < |RStrip(s)|
    decreases |s|
  {
    if IsSpace(s[|s| - 1]) {
      var init := s[..|s| - 1];
      assert init[p] == s[p];
      RStripKeepsVisibleAt(init, p);
    }
  }

  /** A word that is on the line under construction, or among the tokens
      still to place, ends up whole within one of the packed lines. */
  lemma {:induction false} PackKeepsWord(tokens: seq<string>, measure: string -> int, maxWidth: int, current: string, t: string)
    requires t != [] && NoSpace(t)
    requires Contains(current, t) || t in tokens
    ensures exists j :: 0 <= j < |Pack(tokens, measure, maxWidth, current)| && Contains(Pack(tokens, measure, maxWidth, current)[j], t)
    decreases |tokens|
  {
    var out := Pack(tokens, measure, maxWidth, current);
    if tokens == [] {
      RStripKeepsWord(current, t);
      assert out[0] == RStrip(current);
    } else {
      var t0, rest := tokens[0], tokens[1..];
      assert t in tokens ==> t == t0 || t in rest;
      if current != [] && measure(current + t0) > maxWidth {
        var tail := Pack(rest, measure, maxWidth, t0);
        assert out == [RStrip(current)] + tail;
        if Contains(current, t) {
          RStripKeepsWord(current, t);
          assert out[0] == RStrip(current);
        } else {
          if t == t0 {
            assert t0[0..|t0|] == t;
          }
          PackKeepsWord(rest, measure, maxWidth, t0, t);
          var j :| 0 <= j < |tail| && Contains(tail[j], t);
          assert out[j + 1] == tail[j];
        }
      } else {
        var test := current + t0;
        if Contains(current, t) {
          var i, j :| 0 <= i <= j <= |current| && current[i..j] == t;
          assert test[i..j] == t;
        } else if t == t0 {
          assert test[|current|..|test|] == t;
        }
        PackKeepsWord(rest, measure, maxWidth, test, t);
      }
    }
  }

  /** No word is ever split: every word of the line appears whole within
      one wrapped line, whatever the font. */
  lemma WrapKeepsWords(line: string, measure: string -> int, maxWidth: int, k: nat)
    requires k < |Tokenize(line)| && NoSpace(Tokenize(line)[k])
    ensures exists j :: 0 <= j < |Wrap(line, measure, maxWidth)| && Contains(Wrap(line, measure, maxWidth)[j], Tokenize(line)[k])
  {
    TokenizeTokens(line);
    var t := Tokenize(line)[k];
    assert IsToken(t);
    PackKeepsWord(Tokenize(line), measure, maxWidth, "", t);
    assert Wrap(line, measure, maxWidth) == Pack(Tokenize(line), measure, maxWidth, "");
  }

  /** Widths of the font grow with the text: a string is at least as wide as
      either of its parts. */
  ghost predicate Monotone(measure: string -> int)
  {
    forall a: string, b: string :: measure(a) <= measure(a + b) && measure(b) <= measure(a + b)
  }

  /** With a monotone font a token wider than `maxWidth` is never split and
      never shares its line: it is one of the output lines. */
  lemma {:induction false} PackWideToken(tokens: seq<string>, measure: string -> int, maxWidth: int, current: string, k: nat)
    requires Monotone(measure)
    requires k < |tokens| && tokens[k] != [] && NoSpace(tokens[k]) && measure(tokens[k]) > maxWidth
    ensures tokens[k] in Pack(tokens, measure, maxWidth, current)
    decreases |tokens|
  {
    var t, rest := tokens[0], tokens[1..];
    if k == 0 {
      assert measure(t) <= measure(current + t);
      var tail := Pack(rest, measure, maxWidth, if current != [] then t else current + t);
      assert current == [] ==> current + t == t;
      if rest != [] {
        assert measure(t) <= measure(t + rest[0]);
      }
      assert RStrip(t) == t;
      assert tail[0] == t;
    } else {
      if current != [] && measure(current + t) > maxWidth {
        PackWideToken(rest, measure, maxWidth, t, k - 1);
      } else {
        PackWideToken(rest, measure, maxWidth, current + t, k - 1);
      }
    }
  }

  lemma WrapWideToken(line: string, measure: string -> int, maxWidth: int, k: nat)
    requires Monotone(measure)
    requires k < |Tokenize(line)| && NoSpace(Tokenize(line)[k]) && measure(Tokenize(line)[k]) > maxWidth
    ensures Tokenize(line)[k] in Wrap(line, measure, maxWidth)
  {
    TokenizeTokens(line);
    assert IsToken(Tokenize(line)[k]);
    PackWideToken(Tokenize(line), measure, maxWidth, "", k);
  }

  /** With a monotone font, text that fits is left on one line. */
  lemma {:induction false} PackFitting(tokens: seq<string>, measure: string -> int, maxWidth: int, current: string)
    requires Monotone(measure)
    requires measure(current + Concat(tokens)) <= maxWidth
    ensures Pack(tokens, measure, maxWidth, current) ==
      if current + Concat(tokens) == [] then [] else [RStrip(current + Concat(tokens))]
    decreases |tokens|
  {
    if tokens == [] {
      assert current + Concat(tokens) == current;
    } else {
      var t, rest := tokens[0], tokens[1..];
      assert current + Concat(tokens) == (current + t) + Concat(rest);
      assert measure(current + t) <= measure((current + t) + Concat(rest));
      PackFitting(rest, measure, maxWidth, current + t);
    }
  }

  lemma WrapFitting(line: string, measure: string -> int, maxWidth: int)
    requires Monotone(measure)
    requires line != [] && measure(line) <= maxWidth
    ensures Wrap(line, measure, maxWidth) == [RStrip(line)]
  {
    TokenizeConcat(line);
    assert "" + Concat(Tokenize(line)) == line;
    PackFitting(Tokenize(line), measure, maxWidth, "");
  }

  /** With a monotone font, stripping trailing whitespace never widens a line. */
  lemma RStripNarrower(measure: string -> int, s: string)
    requires Monotone(measure)
    ensures measure(RStrip(s)) <= measure(s)
  {
    RStripPrefix(s);
    assert s == RStrip(s) + s[|RStrip(s)|..];
  }

  /** With a monotone font every packed line fits in `maxWidth`, unless it
      is one token on its own (stripped). */
  lemma {:induction false} PackLinesFit(tokens: seq<string>, measure: string -> int, maxWidth: int, current: string, all: seq<string>)
    requires Monotone(measure)
    requires current == [] || measure(current) <= maxWidth || current in all
    requires forall i :: 0 <= i < |tokens| ==> tokens[i] in all
    ensures forall line :: line in Pack(tokens, measure, maxWidth, current) ==>
      measure(line) <= maxWidth || exists t :: t in all && line == RStrip(t)
    decreases |tokens|
  {
    if current != [] {
      RStripNarrower(measure, current);
    }
    if tokens != [] {
      var t, rest := tokens[0], tokens[1..];
      assert forall i :: 0 <= i < |rest| ==> rest[i] == tokens[i + 1];
      if current != [] && measure(current + t) > maxWidth {
        PackLinesFit(rest, measure, maxWidth, t, all);
      } else {
        assert current == [] ==> current + t == t;
        PackLinesFit(rest, measure, maxWidth, current + t, all);
      }
    }
  }

  /** Every wrapped line fits in `maxWidth`, unless it is a single token too
      wide on its own. */
  lemma WrapLinesFit(line: string, measure: string -> int, maxWidth: int)
    requires Monotone(measure)
    ensures forall out :: out in Wrap(line, measure, maxWidth) ==>
      measure(out) <= maxWidth || exists t :: t in Tokenize(line) && out == RStrip(t)
  {
    var tokens := Tokenize(line);
    assert forall i :: 0 <= i < |tokens| ==> tokens[i] in tokens;
    PackLinesFit(tokens, measure, maxWidth, "", tokens);
    assert Wrap(line, measure, maxWidth) == Pack(tokens, measure, maxWidth, "");
    assert forall out :: out in Pack(tokens, measure, maxWidth, "") ==>
      measure(out) <= maxWidth || exists t :: t in tokens && out == RStrip(t);
  }
}
