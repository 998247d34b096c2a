/** Reading the list of monitored sites in `main` (check_sites.py). Each
    line of the list is stripped; blank lines and lines starting with `#`
    are skipped; any other line is `kind|url`, split at its first `|`, both
    halves stripped. A line without `|` makes the unpacking fail, and the
    failure abandons the whole list. Opening and reading the file is I/O:
    the model starts from the file's lines. */
module SiteList {
  import opened Wrappers
  import opened Strings

  /** A monitored site: its kind (`dynamic`, `txt` or anything else) and URL. */
  datatype Site = Site(kind: string, url: string)

  /** How a site is fetched and compared. */
  datatype Mode = DynamicMarkup | StaticMarkup | PlainText

  /** What one line of the list says. */
  datatype Entry = Skip | Malformed | Listed(site: Site)

  /** `s` split at its first `sep`, or `None` when `sep` does not occur. */
  function SplitOnce(s: string, sep: char): (r: Option<(string, string)>)
    ensures r.None? <==> sep !in s
    ensures r.Some? ==> s == r.value.0 + [sep] + r.value.1 && sep !in r.value.0
  {
    if s == [] then None
    else if s[0] == sep then
      assert s == [] + [sep] + s[1..];
      Some(([], s[1..]))
    else
      match SplitOnce(s[1..], sep)
      case None => None
      case Some((a, b)) =>
        assert s == [s[0]] + s[1..];
        assert [s[0]] + a + [sep] + b == [s[0]] + (a + [sep] + b);
        assert sep !in [s[0]] + a by {
          assert forall k :: 0 <= k < |a| ==> ([s[0]] + a)[k + 1] == a[k];
        }
        Some(([s[0]] + a, b))
  }

  /** One line of the list, read as the loop in `main` reads it. */
  function ParseLine(line: string): Entry
  {
    var l := Strip(line);
    if l == [] || StartsWith(l, "#") then Skip
    else match SplitOnce(l, '|')
      case None => Malformed
      case Some((kind, url)) => Listed(Site(Strip(kind), Strip(url)))
  }

  /** What each of `lines` says, in order. */
  function Parse(lines: seq<string>): (entries: seq<Entry>)
    ensures |entries| == |lines|
    ensures forall i :: 0 <= i < |lines| ==> entries[i] == ParseLine(lines[i])
  {
    seq(|lines|, i requires 0 <= i < |lines| => ParseLine(lines[i]))
  }

  /** The sites of `entries`, or `None` when one of them is malformed. */
  function Collect(entries: seq<Entry>): Option<seq<Site>>
  {
    if entries == [] then Some([])
    else
      match Collect(entries[..|entries| - 1])
      case None => None
      case Some(sites) =>
        match entries[|entries| - 1]
        case Skip => Some(sites)
        case Malformed => None
        case Listed(site) => Some(sites + [site])
  }

  /** The sites listed by `lines`, or `None` when one of them is malformed. */
  function Sites(lines: seq<string>): Option<seq<Site>>
  {
    Collect(Parse(lines))
  }

  /** The sites of the listed entries, in order, as a reference definition
      read from the front. */
  function Listings(entries: seq<Entry>): seq<Site>
  {
    if entries == [] then []
    else (if entries[0].Listed? then [entries[0].site] else []) + Listings(entries[1..])
  }

  /** The mode of a site of `kind`: `dynamic` is rendered in a browser,
      `txt` is compared as plain text, anything else is static markup. */
  function ModeOf(kind: string): (m: Mode)
    ensures m.DynamicMarkup? <==> kind == "dynamic"
    ensures m.PlainText? <==> kind == "txt"
  {
    if kind == "dynamic" then DynamicMarkup else if kind == "txt" then PlainText else StaticMarkup
  }

  /** The reading loop of `main`. */
  method ParseSites(lines: seq<string>) returns (r: Option<seq<Site>>)
    ensures r == Sites(lines)
  {
    var urls: seq<Site> := [];
    for i := 0 to |lines|
      invariant Collect(Parse(lines[..i])) == Some(urls)
    {
      assert Collect(Parse(lines[..i + 1])) == match ParseLine(lines[i])
        case Skip => Some(urls)
        case Malformed => None
        case Listed(site) => Some(urls + [site])
      by {
        assert Parse(lines[..i + 1]) == Parse(lines[..i]) + [ParseLine(lines[i])];
        CollectAppend(Parse(lines[..i]), ParseLine(lines[i]));
      }
      var line := Strip(lines[i]);
      if line == [] || StartsWith(line, "#") {
        assert ParseLine(lines[i]) == Skip;
        continue;
      }
      var parts := SplitOnce(line, '|');
      if parts.None? {
        assert Sites(lines).None? by {
          assert Parse(lines)[i].Malformed?;
          CollectNoneIff(Parse(lines));
        }
        return None;
      }
      var (kind, url) := parts.value;
      assert ParseLine(lines[i]) == Listed(Site(Strip(kind), Strip(url)));
      urls := urls + [Site(Strip(kind), Strip(url))];
    }
    assert lines[..|lines|] == lines;
    r := Some(urls);
  }

  lemma CollectAppend(entries: seq<Entry>, e: Entry)
    ensures Collect(entries + [e]) ==
      match Collect(entries)
      case None => None
      case Some(sites) => (match e case Skip => Some(sites) case Malformed => None case Listed(site) => Some(sites + [site]))
  {
    assert (entries + [e])[..|entries|] == entries;
  }

  /** The list is abandoned exactly when one of its lines is malformed. */
  lemma {:induction false} CollectNoneIff(entries: seq<Entry>)
    ensures Collect(entries).None? <==> exists i :: 0 <= i < |entries| && entries[i].Malformed?
    decreases |entries|
  {
    if entries != [] {
      var init := entries[..|entries| - 1];
      CollectNoneIff(init);
      if exists i :: 0 <= i < |init| && init[i].Malformed? {
        var i :| 0 <= i < |init| && init[i].Malformed?;
        assert entries[i] == init[i];
      }
      if exists i :: 0 <= i < |entries| && entries[i].Malformed? {
        var i :| 0 <= i < |entries| && entries[i].Malformed?;
        if i < |init| {
          assert init[i] == entries[i];
        }
      }
    }
  }

  lemma SitesNoneIff(lines: seq<string>)
    ensures Sites(lines).None? <==> exists i :: 0 <= i < |lines| && ParseLine(lines[i]).Malformed?
  {
    CollectNoneIff(Parse(lines));
    if exists i :: 0 <= i < |lines| && ParseLine(lines[i]).Malformed? {
      var i :| 0 <= i < |lines| && ParseLine(lines[i]).Malformed?;
      assert Parse(lines)[i].Malformed?;
    }
  }

  lemma {:induction false} ListingsAppend(entries: seq<Entry>, e: Entry)
    ensures Listings(entries + [e]) == Listings(entries) + (if e.Listed? then [e.site] else [])
    decreases |entries|
  {
    if entries == [] {
      assert [e][1..] == [];
    } else {
      var all := entries + [e];
      assert all[0] == entries[0] && all[1..] == entries[1..] + [e];
      ListingsAppend(entries[1..], e);
      var head := if entries[0].Listed? then [entries[0].site] else [];
      var last := if e.Listed? then [e.site] else [];
      assert Listings(all) == head + (Listings(entries[1..]) + last);
      assert head + (Listings(entries[1..]) + last) == (head + Listings(entries[1..])) + last;
    }
  }

  /** When no entry is malformed, the sites are those of the listed
      entries, in file order. */
  lemma {:induction false} CollectIsListings(entries: seq<Entry>)
    requires Collect(entries).Some?
    ensures Collect(entries) == Some(Listings(entries))
    decreases |entries|
  {
    if entries != [] {
      var init, e := entries[..|entries| - 1], entries[|entries| - 1];
      assert entries == init + [e];
      CollectAppend(init, e);
      CollectIsListings(init);
      ListingsAppend(init, e);
      assert Listings(entries) == Listings(init) + (if e.Listed? then [e.site] else []);
      match e
      case Skip =>
        assert Listings(init) + [] == Listings(init);
      case Malformed =>
      case Listed(site) =>
        assert Collect(entries) == Some(Listings(init) + [site]);
    }
  }

  /** The number of sites is at most the number of lines. */
  lemma {:induction false} ListingsCount(entries: seq<Entry>)
    ensures |Listings(entries)| <= |entries|
    decreases |entries|
  {
    if entries != [] {
      ListingsCount(entries[1..]);
    }
  }

  /** Every listed site has a stripped kind without `|` and a stripped URL. */
  lemma ParseLineListed(line: string)
    requires ParseLine(line).Listed?
    ensures IsStripped(ParseLine(line).site.kind) && IsStripped(ParseLine(line).site.url)
    ensures '|' !in ParseLine(line).site.kind
  {
    var l := Strip(line);
    var (kind, url) := SplitOnce(l, '|').value;
    if '|' in Strip(kind) {
      StripChars(kind, '|');
    }
  }

  /** The text of a list line for `site`. */
  function Format(site: Site): string
  {
    site.kind + "|" + site.url
  }

  /** Writing a site as `kind|url` and reading the line back gives the site,
      when the kind is stripped, has no `|` and does not start with `#`, and
      the URL is stripped. */
  lemma FormatRoundTrip(site: Site)
    requires IsStripped(site.kind) && IsStripped(site.url)
    requires '|' !in site.kind && !StartsWith(site.kind, "#")
    ensures ParseLine(Format(site)) == Listed(site)
  {
    var line := Format(site);
    assert IsStripped(line) by {
      assert line[0] == if site.kind != [] then site.kind[0] else '|';
      assert line[|line| - 1] == if site.url != [] then site.url[|site.url| - 1] else '|';
    }
    StripOfStripped(line);
    StripOfStripped(site.kind);
    StripOfStripped(site.url);
    SplitOnceAt(site.kind, '|', site.url);
  }

  /** Splitting `a + sep + b` at its first `sep` gives `a` and `b` back
      when `a` has no `sep`. */
  lemma {:induction false} SplitOnceAt(a: string, sep: char, b: string)
    requires sep !in a
    ensures SplitOnce(a + [sep] + b, sep) == Some((a, b))
    decreases |a|
  {
    var s := a + [sep] + b;
    if a == [] {
      assert s[1..] == b;
    } else {
      assert s[1..] == a[1..] + [sep] + b;
      SplitOnceAt(a[1..], sep, b);
      assert a == [s[0]] + a[1..];
    }
  }
}
