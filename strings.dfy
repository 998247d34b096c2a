/** The few Python string built-ins the monitor relies on, written out with
    Python's semantics: `str.isspace`, `strip`/`lstrip`/`rstrip`,
    `replace`, `splitlines`, `"\n".join` and `startswith`. */
module Strings {

  /** `c.isspace()` in Python: the Unicode whitespace characters. */
  predicate IsSpace(c: char)
  {
    || ('\t' <= c <= '\r')
    || ('\U{1C}' <= c <= ' ')
    || c == '\U{85}' || c == '\U{A0}' || c == '\U{1680}'
    || ('\U{2000}' <= c <= '\U{200A}')
    || c == '\U{2028}' || c == '\U{2029}' || c == '\U{202F}' || c == '\U{205F}' || c == '\U{3000}'
  }

  /** The characters at which `str.splitlines` ends a line. */
  predicate IsLineBreak(c: char)
  {
    || ('\n' <= c <= '\r')
    || ('\U{1C}' <= c <= '\U{1E}')
    || c == '\U{85}' || c == '\U{2028}' || c == '\U{2029}'
  }

  predicate AllSpace(s: string)
  {
    forall i :: 0 <= i < |s| ==> IsSpace(s[i])
  }

  predicate NoSpace(s: string)
  {
    forall i :: 0 <= i < |s| ==> !IsSpace(s[i])
  }

  /** Neither end of `s` is whitespace: what `strip` guarantees. */
  predicate IsStripped(s: string)
  {
    s == [] || (!IsSpace(s[0]) && !IsSpace(s[|s| - 1]))
  }

  predicate StartsWith(s: string, prefix: string)
  {
    |prefix| <= |s| && s[..|prefix|] == prefix
  }

  /** `s.lstrip()`: the suffix of `s` left after dropping leading whitespace. */
  function LStrip(s: string): (r: string)
    ensures |r| <= |s|
    ensures r == [] || !IsSpace(r[0])
  {
    if s != [] && IsSpace(s[0]) then LStrip(s[1..]) else s
  }

  lemma {:induction false} LStripSuffix(s: string)
    ensures LStrip(s) == s[|s| - |LStrip(s)|..]
    ensures AllSpace(s[..|s| - |LStrip(s)|])
    decreases |s|
  {
    if s != [] && IsSpace(s[0]) {
      LStripSuffix(s[1..]);
      var n := |s| - |LStrip(s)|;
      assert s[1..][..n - 1] == s[1..n];
      assert s[1..][n - 1..] == s[n..];
    }
  }

  /** `s.rstrip()`: the prefix of `s` left after dropping trailing whitespace. */
  function RStrip(s: string): (r: string)
    ensures |r| <= |s|
    ensures r == [] || !IsSpace(r[|r| - 1])
  {
    if s != [] && IsSpace(s[|s| - 1]) then RStrip(s[..|s| - 1]) else s
  }

  lemma {:induction false} RStripPrefix(s: string)
    ensures RStrip(s) == s[..|RStrip(s)|]
    ensures AllSpace(s[|RStrip(s)|..])
    decreases |s|
  {
    if s != [] && IsSpace(s[|s| - 1]) {
      RStripPrefix(s[..|s| - 1]);
      var n := |RStrip(s)|;
      assert s[..|s| - 1][..n] == s[..n];
      assert s[..|s| - 1][n..] == s[n..|s| - 1];
    }
  }

  /** `s.strip()`. */
  function Strip(s: string): (r: string)
    ensures IsStripped(r)
    ensures |r| <= |s|
  {
    RStripPrefix(LStrip(s));
    RStrip(LStrip(s))
  }

  /** Where the text kept by `strip` starts in its input. */
  function StripStart(s: string): (i: nat)
    ensures i + |Strip(s)| <= |s|
  {
    |s| - |LStrip(s)|
  }

  /** Strip keeps a contiguous piece of its input and drops only whitespace. */
  lemma StripSlice(s: string)
    ensures Strip(s) == s[StripStart(s)..StripStart(s) + |Strip(s)|]
    ensures AllSpace(s[..StripStart(s)]) && AllSpace(s[StripStart(s) + |Strip(s)|..])
  {
    var l := LStrip(s);
    var i := |s| - |l|;
    var r := RStrip(l);
    LStripSuffix(s);
    RStripPrefix(l);
    assert s[i..i + |r|] == l[..|r|];
    assert s[i + |r|..] == l[|r|..];
  }

  lemma StripChars(s: string, c: char)
    requires c in Strip(s)
    ensures c in s
  {
    StripSlice(s);
    var i := StripStart(s);
    var k :| 0 <= k < |Strip(s)| && Strip(s)[k] == c;
    assert s[i + k] == c;
  }

  lemma {:induction false} StripOfStripped(s: string)
    requires IsStripped(s)
    ensures Strip(s) == s
  {
  }

  lemma StripIdempotent(s: string)
    ensures Strip(Strip(s)) == Strip(s)
  {
    StripOfStripped(Strip(s));
  }

  /** A line is blank for `line.strip() == ""` exactly when it is all whitespace. */
  lemma StripEmptyIffAllSpace(s: string)
    ensures Strip(s) == [] <==> AllSpace(s)
  {
    var l := LStrip(s);
    LStripSuffix(s);
    RStripPrefix(l);
    if Strip(s) == [] {
      assert s[..|s|] == s;
    }
  }

  /** `s.replace(pat, rep)`: every occurrence of `pat`, scanned from the left
      and without overlap, is replaced by `rep`. */
  function Replace(s: string, pat: string, rep: string): string
    requires pat != []
    decreases |s|
  {
    if |s| < |pat| then s
    else if s[..|pat|] == pat then rep + Replace(s[|pat|..], pat, rep)
    else [s[0]] + Replace(s[1..], pat, rep)
  }

  /** Replace introduces no character that is in neither its input nor `rep`. */
  lemma {:induction false} ReplaceChars(s: string, pat: string, rep: string, c: char)
    requires pat != []
    requires c in Replace(s, pat, rep)
    ensures c in s || c in rep
    decreases |s|
  {
    if |s| < |pat| {
    } else if s[..|pat|] == pat {
      if c !in rep {
        ReplaceChars(s[|pat|..], pat, rep, c);
        var k :| 0 <= k < |s[|pat|..]| && s[|pat|..][k] == c;
        assert s[|pat| + k] == c;
      }
    } else if c != s[0] {
      ReplaceChars(s[1..], pat, rep, c);
      if c !in rep {
        var k :| 0 <= k < |s[1..]| && s[1..][k] == c;
        assert s[1 + k] == c;
      }
    }
  }

  lemma ReplaceKeepsAbsent(s: string, pat: string, rep: string, c: char)
    requires pat != [] && c !in s && c !in rep
    ensures c !in Replace(s, pat, rep)
  {
    if c in Replace(s, pat, rep) {
      ReplaceChars(s, pat, rep, c);
    }
  }

  /** Replacing a one-character pattern removes that character altogether. */
  lemma {:induction false} ReplaceRemoves(s: string, c: char, rep: string)
    requires c !in rep
    ensures c !in Replace(s, [c], rep)
    decreases |s|
  {
    if |s| >= 1 {
      ReplaceRemoves(s[1..], c, rep);
    }
  }

  /** A pattern with a character that does not occur leaves the input as it is. */
  lemma {:induction false} ReplaceAbsent(s: string, pat: string, rep: string, j: nat)
    requires j < |pat| && pat[j] !in s
    ensures Replace(s, pat, rep) == s
    decreases |s|
  {
    if |s| >= |pat| {
      assert s[..|pat|][j] == s[j];
      ReplaceAbsent(s[1..], pat, rep, j);
      assert s == [s[0]] + s[1..];
    }
  }

  /** A replacement no longer than the pattern never lengthens the text. */
  lemma {:induction false} ReplaceShrinks(s: string, pat: string, rep: string)
    requires pat != [] && |rep| <= |pat|
    ensures |Replace(s, pat, rep)| <= |s|
    decreases |s|
  {
    if |s| < |pat| {
    } else if s[..|pat|] == pat {
      ReplaceShrinks(s[|pat|..], pat, rep);
    } else {
      ReplaceShrinks(s[1..], pat, rep);
    }
  }

  /** Length of the first line of `s`: the index of the first line break. */
  function LineEnd(s: string): (n: nat)
    ensures n <= |s|
    ensures n < |s| ==> IsLineBreak(s[n])
  {
    if s == [] || IsLineBreak(s[0]) then 0 else 1 + LineEnd(s[1..])
  }

  /** `s.splitlines()`: the lines of `s` without their terminators; `"\r\n"`
      ends one line, and a final terminator does not start an empty line. */
  function SplitLines(s: string): seq<string>
    decreases |s|
  {
    if s == [] then []
    else
      var n := LineEnd(s);
      if n == |s| then [s]
      else [s[..n]] + SplitLines(NextLine(s))
  }

  /** What follows the first line of `s` and its terminator. */
  function NextLine(s: string): (r: string)
    requires LineEnd(s) < |s|
    ensures |r| < |s|
  {
    s[LineEnd(s) + TerminatorWidth(s, LineEnd(s))..]
  }

  /** The length of the line terminator at `s[n]`: 2 for CRLF, else 1. */
  function TerminatorWidth(s: string, n: nat): (w: nat)
    requires n < |s|
    ensures 1 <= w && n + w <= |s|
  {
    if s[n] == '\r' && n + 1 < |s| && s[n + 1] == '\n' then 2 else 1
  }

  /** The first line has no line break. */
  lemma {:induction false} LineEndNoBreak(s: string)
    ensures NoLineBreak(s[..LineEnd(s)])
    decreases |s|
  {
    if s != [] && !IsLineBreak(s[0]) {
      LineEndNoBreak(s[1..]);
      assert s[..LineEnd(s)] == [s[0]] + s[1..][..LineEnd(s[1..])];
    }
  }

  /** `sep.join(parts)`. */
  function Join(parts: seq<string>, sep: string): string
  {
    if parts == [] then ""
    else if |parts| == 1 then parts[0]
    else parts[0] + sep + Join(parts[1..], sep)
  }

  predicate NoLineBreak(s: string)
  {
    forall k :: 0 <= k < |s| ==> !IsLineBreak(s[k])
  }

  /** No line that `splitlines` returns holds a line break. */
  lemma {:induction false} SplitLinesNoBreak(s: string)
    ensures forall i :: 0 <= i < |SplitLines(s)| ==> NoLineBreak(SplitLines(s)[i])
    decreases |s|
  {
    if s != [] {
      var n := LineEnd(s);
      LineEndNoBreak(s);
      if n < |s| {
        var rest := NextLine(s);
        var lines := SplitLines(s);
        SplitLinesNoBreak(rest);
        forall i | 0 <= i < |lines| ensures NoLineBreak(lines[i]) {
          if i > 0 {
            assert lines[i] == SplitLines(rest)[i - 1];
          }
        }
      } else {
        assert s[..n] == s;
      }
    }
  }

  /** Every line break of `s` is a LF. */
  predicate OnlyLineFeeds(s: string)
  {
    forall k :: 0 <= k < |s| && IsLineBreak(s[k]) ==> s[k] == '\n'
  }

  lemma OnlyLineFeedsSuffix(s: string, i: nat)
    requires OnlyLineFeeds(s) && i <= |s|
    ensures OnlyLineFeeds(s[i..])
  {
    forall k | 0 <= k < |s[i..]| && IsLineBreak(s[i..][k]) ensures s[i..][k] == '\n' {
      assert s[i..][k] == s[i + k];
    }
  }

  /** Joining the lines of a text whose only line break is LF, and which
      does not end in one, gives the text back. */
  lemma {:induction false} JoinSplitLines(s: string)
    requires OnlyLineFeeds(s)
    requires s == [] || s[|s| - 1] != '\n'
    ensures Join(SplitLines(s), "\n") == s
    decreases |s|
  {
    if s != [] && LineEnd(s) < |s| {
      var n := LineEnd(s);
      var rest := NextLine(s);
      assert s == s[..n] + "\n" + rest && rest != [] by {
        assert s[n] == '\n';
        assert TerminatorWidth(s, n) == 1;
      }
      assert OnlyLineFeeds(rest) && rest[|rest| - 1] != '\n' by {
        OnlyLineFeedsSuffix(s, n + 1);
      }
      JoinSplitLines(rest);
      var lines := SplitLines(rest);
      assert lines != [] by {
        if LineEnd(rest) < |rest| {
          assert lines == [rest[..LineEnd(rest)]] + SplitLines(NextLine(rest));
        }
      }
      assert SplitLines(s) == [s[..n]] + lines;
      assert ([s[..n]] + lines)[1..] == lines;
    }
  }

  /** The concatenation of a sequence of strings (`"".join(parts)`). */
  function Concat(parts: seq<string>): string
  {
    if parts == [] then "" else parts[0] + Concat(parts[1..])
  }

  lemma {:induction false} ConcatAppend(a: seq<string>, b: seq<string>)
    ensures Concat(a + b) == Concat(a) + Concat(b)
  {
    if a == [] {
      assert a + b == b;
    } else {
      assert (a + b)[0] == a[0];
      assert (a + b)[1..] == a[1..] + b;
      ConcatAppend(a[1..], b);
    }
  }

  /** The non-whitespace characters of `s`, in order. */
  function Visible(s: string): (r: string)
    ensures NoSpace(r)
  {
    if s == [] then ""
    else (if IsSpace(s[0]) then "" else [s[0]]) + Visible(s[1..])
  }

  lemma {:induction false} VisibleAppend(a: string, b: string)
    ensures Visible(a + b) == Visible(a) + Visible(b)
  {
    if a == [] {
      assert a + b == b;
    } else {
      assert (a + b)[0] == a[0];
      assert (a + b)[1..] == a[1..] + b;
      VisibleAppend(a[1..], b);
    }
  }

  lemma VisibleAllSpace(s: string)
    requires AllSpace(s)
    ensures Visible(s) == []
  {
  }

  /** Stripping trailing whitespace never loses a visible character. */
  lemma VisibleRStrip(s: string)
    ensures Visible(RStrip(s)) == Visible(s)
  {
    var r := RStrip(s);
    RStripPrefix(s);
    assert s == r + s[|r|..];
    VisibleAppend(r, s[|r|..]);
    VisibleAllSpace(s[|r|..]);
  }
}
