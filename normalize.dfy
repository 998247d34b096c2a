/** `normalize_text` and `safe_filename` (check_sites.py). */
module Normalize {
  import opened Strings

  /** `normalize_text`: CRLF becomes LF, then surrounding whitespace goes. */
  function NormalizeText(text: string): (r: string)
    ensures IsStripped(r)
    ensures |r| <= |text|
  {
    ReplaceShrinks(text, "\r\n", "\n");
    Strip(Replace(text, "\r\n", "\n"))
  }

  /** On text without a carriage return, normalising is plain `strip` and
      doing it twice changes nothing more. */
  lemma NormalizeWithoutCarriageReturn(text: string)
    requires '\r' !in text
    ensures NormalizeText(text) == Strip(text)
    ensures NormalizeText(NormalizeText(text)) == NormalizeText(text)
  {
    ReplaceAbsent(text, "\r\n", "\n", 0);
    var once := Strip(text);
    if '\r' in once {
      StripChars(text, '\r');
    }
    ReplaceAbsent(once, "\r\n", "\n", 0);
    StripIdempotent(text);
  }

  lemma ReplaceCrlfFirst()
    ensures Replace("a\r\r\nb", "\r\n", "\n") == "a\r\nb"
  {
    var s := "a\r\r\nb";
    assert Replace(s[4..], "\r\n", "\n") == "b";
    assert s[2..][..2] == "\r\n" && s[2..][2..] == s[4..];
    assert Replace(s[2..], "\r\n", "\n") == "\nb";
    assert s[1..][..2] != "\r\n" && s[1..][1..] == s[2..];
    assert Replace(s[1..], "\r\n", "\n") == "\r\nb";
    assert s[..2] != "\r\n";
  }

  lemma ReplaceCrlfSecond()
    ensures Replace("a\r\nb", "\r\n", "\n") == "a\nb"
  {
    var t := "a\r\nb";
    assert Replace(t[3..], "\r\n", "\n") == "b";
    assert t[1..][..2] == "\r\n" && t[1..][2..] == t[3..];
    assert Replace(t[1..], "\r\n", "\n") == "\nb";
    assert t[..2][0] == 'a';
  }

  /** Normalising is not idempotent in general: a lone carriage return
      before a CRLF survives the first pass and pairs up in the second. */
  lemma NormalizeNotIdempotent()
    ensures NormalizeText("a\r\r\nb") == "a\r\nb"
    ensures NormalizeText(NormalizeText("a\r\r\nb")) == "a\nb"
  {
    ReplaceCrlfFirst();
    StripOfStripped("a\r\nb");
    ReplaceCrlfSecond();
    StripOfStripped("a\nb");
  }

  /** Turning every LF into CRLF and back gives the original text. */
  lemma {:induction false} CrlfRoundTrip(text: string)
    requires '\r' !in text
    ensures Replace(Replace(text, "\n", "\r\n"), "\r\n", "\n") == text
    decreases |text|
  {
    if text != [] {
      var rest := text[1..];
      CrlfRoundTrip(rest);
      var crlf := Replace(rest, "\n", "\r\n");
      assert text[..1] == [text[0]];
      if text[0] == '\n' {
        assert Replace(text, "\n", "\r\n") == "\r\n" + crlf;
        assert ("\r\n" + crlf)[..2] == "\r\n";
        assert ("\r\n" + crlf)[2..] == crlf;
      } else {
        assert Replace(text, "\n", "\r\n") == [text[0]] + crlf;
        if |[text[0]] + crlf| >= 2 {
          assert ([text[0]] + crlf)[..2] != "\r\n";
          assert ([text[0]] + crlf)[1..] == crlf;
        } else {
          assert crlf == [];
          assert rest == [];
        }
      }
      assert text == [text[0]] + rest;
    }
  }

  /** The same text with LF or with CRLF line endings normalises alike. */
  lemma NormalizeLineEndings(text: string)
    requires '\r' !in text
    ensures NormalizeText(Replace(text, "\n", "\r\n")) == NormalizeText(text)
  {
    CrlfRoundTrip(text);
    ReplaceAbsent(text, "\r\n", "\n", 0);
  }

  /** `safe_filename`: the snapshot key of a URL. */
  function SafeFilename(url: string): (key: string)
    ensures '/' !in key && '?' !in key && '&' !in key
    ensures |key| <= |url|
  {
    var s1 := Replace(url, "://", "_");
    var s2 := Replace(s1, "/", "_");
    var s3 := Replace(s2, "?", "_");
    var s4 := Replace(s3, "&", "_");
    ReplaceShrinks(url, "://", "_");
    ReplaceShrinks(s1, "/", "_");
    ReplaceShrinks(s2, "?", "_");
    ReplaceShrinks(s3, "&", "_");
    ReplaceRemoves(s1, '/', "_");
    ReplaceRemoves(s2, '?', "_");
    ReplaceRemoves(s3, '&', "_");
    ReplaceKeepsAbsent(s2, "?", "_", '/');
    ReplaceKeepsAbsent(s3, "&", "_", '/');
    ReplaceKeepsAbsent(s3, "&", "_", '?');
    s4
  }

  /** A URL is its own key exactly when it has no `/`, `?` or `&`. */
  lemma SafeFilenameIdentity(url: string)
    ensures SafeFilename(url) == url <==> ('/' !in url && '?' !in url && '&' !in url)
  {
    if '/' !in url && '?' !in url && '&' !in url {
      ReplaceAbsent(url, "://", "_", 1);
      ReplaceAbsent(url, "/", "_", 0);
      ReplaceAbsent(url, "?", "_", 0);
      ReplaceAbsent(url, "&", "_", 0);
    }
  }

  /** Different URLs can share one snapshot key. */
  lemma SafeFilenameCollision()
    ensures SafeFilename("a/b") == SafeFilename("a?b") == "a_b"
  {
    ReplaceAbsent("a/b", "://", "_", 0);
    ReplaceAbsent("a?b", "://", "_", 0);
    ReplaceAbsent("a?b", "/", "_", 0);
    ReplaceAbsent("a_b", "?", "_", 0);
    ReplaceAbsent("a_b", "&", "_", 0);
    ReplaceAbsent("a_b", "/", "_", 0);
    var s := "a/b";
    assert s[..1] != "/" && s[1..][..1] == "/";
    assert Replace(s[2..], "/", "_") == "b";
    assert Replace(s, "/", "_") == "a_b";
    var t := "a?b";
    assert t[..1] != "?" && t[1..][..1] == "?";
    assert Replace(t[2..], "?", "_") == "b";
    assert Replace(t, "?", "_") == "a_b";
  }
}
