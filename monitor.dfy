/** The decision core of the monitor: `compare_and_notify` and the loop of
    `main` over the site list (check_sites.py). Fetching, the chat bot, the
    markup library, `difflib` and the font are outside the model: a fetch is
    given as its result, the libraries as the functions of `Collaborators`,
    and every message sent or line appended to the change log is recorded as
    an `Event`. Snapshot files are the entries of a map keyed by the URL's
    `SafeFilename`. */
module Monitor {
  import opened Wrappers
  import opened Strings
  import opened Normalize
  import opened Formatting
  import opened Rendering
  import opened SiteList

  /** The libraries the monitor calls: the markup prettifier (`None` where
      it raises), `difflib.unified_diff` over two lists of lines, the width
      of a text in the font, and the height of the letter "A" in it. */
  datatype Collaborators = Collaborators(
    prettify: string -> Option<string>,
    unifiedDiff: (seq<string>, seq<string>) -> seq<string>,
    measure: string -> int,
    letterHeight: int)

  /** What fetching a page gave: its body, or the message of the exception
      the fetch raised. */
  datatype FetchResult = Page(body: string) | Failed(reason: string)

  /** What `compare_and_notify` found. */
  datatype Outcome =
    | FetchError(content: string)
    | FirstRun
    | Unchanged
    | Changed(image: Canvas)
    | CompareError

  /** A message to the administrator. */
  datatype Notice =
    | Unreachable(url: string, timestamp: string, error: string)
    | FirstFetch(url: string, timestamp: string)
    | ComparisonFailed(url: string)
    | SiteListUnreadable

  /** What the monitor sends or writes: a message to the administrator, a
      diff image to the channel, or a line of the change log, which records
      either a failed access (with its error) or a fetch. */
  datatype Event =
    | AdminMessage(notice: Notice)
    | ChannelPhoto(url: string, timestamp: string, image: Canvas)
    | LogLine(url: string, timestamp: string, accessError: Option<string>)

  /** The inputs of one visit to a site that the model does not compute. */
  datatype Observation = Observation(fetched: FetchResult, timestamp: string, failure: bool)

  /** The snapshots and the event record. */
  datatype State = State(snapshots: map<string, string>, events: seq<Event>)

  const ErrorPrefix := "ERROR:"

  /** `get_page_content`: the normalised body, or the error in-band. */
  function PageContent(fetched: FetchResult): (r: string)
    ensures fetched.Page? ==> IsStripped(r) && |r| <= |fetched.body|
    ensures fetched.Failed? ==> StartsWith(r, ErrorPrefix)
  {
    match fetched
    case Page(body) => NormalizeText(body)
    case Failed(reason) => "ERROR: " + reason
  }

  /** A snapshot as `read_text` returns it: Python's universal newlines turn
      CRLF and lone CR into LF. */
  function ReadBack(stored: string): (r: string)
    ensures '\r' !in r
  {
    var once := Replace(stored, "\r\n", "\n");
    ReplaceRemoves(once, '\r', "\n");
    Replace(once, "\r", "\n")
  }

  /** The new content as it is compared and stored: formatted unless the
      site is plain text. */
  function Content(tools: Collaborators, isText: bool, content: string): string
  {
    if isText then content else FormattedMarkup(tools.prettify, content)
  }

  /** The stored snapshot as it is compared: read back, formatted unless the
      site is plain text, and normalised. */
  function Reread(tools: Collaborators, isText: bool, stored: string): string
  {
    var text := ReadBack(stored);
    NormalizeText(if isText then text else FormattedMarkup(tools.prettify, text))
  }

  /** The image of the differences between two texts. */
  function DiffImage(tools: Collaborators, older: string, newer: string): Canvas
  {
    var diffText := Join(tools.unifiedDiff(SplitLines(older), SplitLines(newer)), "\n");
    Render(diffText, tools.measure, tools.letterHeight, DefaultMinWidth, DefaultMaxWidth, DefaultLineHeightPad)
  }

  /** The outcome of `compare_and_notify` given what was fetched, the
      snapshot if there is one, and whether comparing raised. */
  function Decide(tools: Collaborators, isText: bool, fetched: FetchResult, previous: Option<string>, failure: bool): Outcome
  {
    var content := PageContent(fetched);
    if StartsWith(content, ErrorPrefix) then FetchError(content)
    else Judge(tools, isText, previous, failure, Content(tools, isText, content))
  }

  /** The outcome of a successful fetch of `newer`: a first run when there
      is no snapshot, otherwise the comparison, unless it raised. */
  function Judge(tools: Collaborators, isText: bool, previous: Option<string>, failure: bool, newer: string): Outcome
  {
    if previous.None? then FirstRun
    else if failure then CompareError
    else Compared(tools, isText, previous.value, newer)
  }

  /** The comparison of a stored snapshot with the new content. */
  function Compared(tools: Collaborators, isText: bool, stored: string, newer: string): Outcome
  {
    var older := Reread(tools, isText, stored);
    if older != newer then Changed(DiffImage(tools, older, newer)) else Unchanged
  }

  /** The comparison step of `compare_and_notify`, up to sending the image. */
  method CompareContents(tools: Collaborators, isText: bool, stored: string, newer: string) returns (outcome: Outcome)
    ensures outcome == Compared(tools, isText, stored, newer)
  {
    var oldContent := ReadBack(stored);
    if !isText {
      oldContent := FormatHtmlContent(tools.prettify, oldContent);
    }
    oldContent := NormalizeText(oldContent);
    if oldContent != newer {
      var diffText := Join(tools.unifiedDiff(SplitLines(oldContent), SplitLines(newer)), "\n");
      var image := DiffToImage(diffText, tools.measure, tools.letterHeight, DefaultMinWidth, DefaultMaxWidth, DefaultLineHeightPad);
      outcome := Changed(image);
    } else {
      outcome := Unchanged;
    }
  }

  /** The messages and log lines of one visit with the given outcome. */
  function Effects(url: string, timestamp: string, outcome: Outcome): (e: seq<Event>)
    ensures e != [] && e[|e| - 1].LogLine? && e[|e| - 1].url == url
    ensures forall i :: 0 <= i < |e| - 1 ==> !e[i].LogLine?
    ensures e[|e| - 1].accessError.Some? <==> outcome.FetchError?
    ensures (exists i :: 0 <= i < |e| && e[i].ChannelPhoto?) <==> outcome.Changed?
  {
    match outcome
    case FetchError(content) =>
      [AdminMessage(Unreachable(url, timestamp, content)), LogLine(url, timestamp, Some(content))]
    case FirstRun => [AdminMessage(FirstFetch(url, timestamp)), LogLine(url, timestamp, None)]
    case Unchanged => [LogLine(url, timestamp, None)]
    case Changed(image) =>
      var e := [ChannelPhoto(url, timestamp, image), LogLine(url, timestamp, None)];
      assert e[0].ChannelPhoto?;
      e
    case CompareError => [AdminMessage(ComparisonFailed(url)), LogLine(url, timestamp, None)]
  }

  /** The snapshot of `url` in `snapshots`, if there is one. */
  function Previous(snapshots: map<string, string>, url: string): Option<string>
  {
    var key := SafeFilename(url);
    if key in snapshots then Some(snapshots[key]) else None
  }

  /** The state after one `compare_and_notify`: the events of its outcome
      recorded, and the snapshot overwritten unless the fetch failed. */
  function Visit(tools: Collaborators, s: State, url: string, isText: bool, obs: Observation): State
  {
    var outcome := Decide(tools, isText, obs.fetched, Previous(s.snapshots, url), obs.failure);
    var snapshots := if outcome.FetchError? then s.snapshots
                     else s.snapshots[SafeFilename(url) := Content(tools, isText, PageContent(obs.fetched))];
    State(snapshots, s.events + Effects(url, obs.timestamp, outcome))
  }

  /** Visiting `sites` in order, the `k`-th of them observed as `observe(from + k)`. */
  function VisitAll(tools: Collaborators, s: State, sites: seq<Site>, observe: nat -> Observation, from: nat): State
    decreases |sites|
  {
    if sites == [] then s
    else
      var site := sites[0];
      var next := Visit(tools, s, site.url, ModeOf(site.kind).PlainText?, observe(from));
      VisitAll(tools, next, sites[1..], observe, from + 1)
  }

  /** One run of `main` after its configuration checks: the site list, when
      it can be read and parsed, is visited in order; otherwise the
      administrator is told and nothing else happens. */
  function Cycle(tools: Collaborators, s: State, listing: Option<seq<string>>, observe: nat -> Observation): State
  {
    if listing.None? || Sites(listing.value).None? then State(s.snapshots, s.events + [AdminMessage(SiteListUnreadable)])
    else VisitAll(tools, s, Sites(listing.value).value, observe, 0)
  }

  /** Every stored snapshot is stripped: what the monitor writes always is. */
  predicate AllStripped(snapshots: map<string, string>)
  {
    forall key :: key in snapshots ==> IsStripped(snapshots[key])
  }

  /** The number of change-log lines among `events`. */
  function LogLines(events: seq<Event>): nat
  {
    if events == [] then 0 else LogLines(events[..|events| - 1]) + (if events[|events| - 1].LogLine? then 1 else 0)
  }

  /** The monitor: snapshot files by key, and everything it has sent or
      logged, oldest first. */
  class Monitor {
    const tools: Collaborators
    var snapshots: map<string, string>
    var events: seq<Event>

    /** A monitor over the snapshots already on disk. */
    constructor (tools: Collaborators, stored: map<string, string>)
      ensures this.tools == tools && snapshots == stored && events == []
    {
      this.tools := tools;
      snapshots := stored;
      events := [];
    }

    /** `compare_and_notify` for `url`, which was fetched as `fetched` at
        `timestamp`; `failure` says whether comparing with the snapshot
        raised. */
    method CompareAndNotify(url: string, isText: bool, fetched: FetchResult, timestamp: string, failure: bool)
      returns (outcome: Outcome)
      modifies this
      ensures outcome == Decide(tools, isText, fetched, Previous(old(snapshots), url), failure)
      ensures events == old(events) + Effects(url, timestamp, outcome)
      ensures snapshots == if outcome.FetchError? then old(snapshots)
                           else old(snapshots)[SafeFilename(url) := Content(tools, isText, PageContent(fetched))]
    {
      var content := PageContent(fetched);
      if StartsWith(content, ErrorPrefix) {
        events := events + [AdminMessage(Unreachable(url, timestamp, content)), LogLine(url, timestamp, Some(content))];
        return FetchError(content);
      }
      if !isText {
        content := FormatHtmlContent(tools.prettify, content);
      }
      outcome := Refresh(url, isText, content, timestamp, failure);
    }

    /** The rest of `compare_and_notify` once the content `content` was
        fetched and formatted. */
    method Refresh(url: string, isText: bool, content: string, timestamp: string, failure: bool)
      returns (outcome: Outcome)
      modifies this
      ensures outcome == Judge(tools, isText, Previous(old(snapshots), url), failure, content)
      ensures events == old(events) + Effects(url, timestamp, outcome)
      ensures snapshots == old(snapshots)[SafeFilename(url) := content]
    {
      var key := SafeFilename(url);
      if key !in snapshots {
        snapshots := snapshots[key := content];
        events := events + [AdminMessage(FirstFetch(url, timestamp))];
        outcome := FirstRun;
      } else if failure {
        events := events + [AdminMessage(ComparisonFailed(url))];
        outcome := CompareError;
      } else {
        outcome := CompareContents(tools, isText, snapshots[key], content);
        if outcome.Changed? {
          events := events + [ChannelPhoto(url, timestamp, outcome.image)];
        }
      }
      events := events + [LogLine(url, timestamp, None)];
      snapshots := snapshots[key := content];
    }

    /** The site loop of `main`: `listing` is the lines of the site list, or
        `None` when it cannot be opened; the `k`-th site is observed as
        `observe(k)`. */
    method RunCycle(listing: Option<seq<string>>, observe: nat -> Observation)
      modifies this
      ensures State(snapshots, events) == Cycle(tools, State(old(snapshots), old(events)), listing, observe)
    {
      var sites: Option<seq<Site>> := None;
      if listing.Some? {
        sites := ParseSites(listing.value);
      }
      if sites.None? {
        events := events + [AdminMessage(SiteListUnreadable)];
        return;
      }
      var list := sites.value;
      for i := 0 to |list|
        invariant VisitAll(tools, State(snapshots, events), list[i..], observe, i)
               == VisitAll(tools, State(old(snapshots), old(events)), list, observe, 0)
      {
        var site := list[i];
        var mode := ModeOf(site.kind);
        var obs := observe(i);
        assert list[i..][1..] == list[i + 1..];
        ghost var before := State(snapshots, events);
        var _ := CompareAndNotify(site.url, mode.PlainText?, obs.fetched, obs.timestamp, obs.failure);
        assert State(snapshots, events) == Visit(tools, before, site.url, mode.PlainText?, obs);
      }
    }
  }

  /** The fetch-error path is taken exactly when the fetched content starts
      with `ERROR:`; every failed fetch takes it. */
  lemma FetchErrorIff(tools: Collaborators, isText: bool, fetched: FetchResult, previous: Option<string>, failure: bool)
    ensures Decide(tools, isText, fetched, previous, failure).FetchError? <==> StartsWith(PageContent(fetched), ErrorPrefix)
    ensures fetched.Failed? ==> Decide(tools, isText, fetched, previous, failure) == FetchError(PageContent(fetched))
  {
  }

  /** A page whose own text starts with `ERROR:` is taken for a failed
      fetch: the error signal travels in-band. */
  lemma ErrorPageMisclassified(tools: Collaborators, isText: bool, body: string, previous: Option<string>, failure: bool)
    requires StartsWith(NormalizeText(body), ErrorPrefix)
    ensures Decide(tools, isText, Page(body), previous, failure) == FetchError(NormalizeText(body))
  {
  }

  /** A page is reported changed only when a snapshot exists, comparing did
      not raise, and the re-read snapshot differs from the new content; the
      image is that of their differences. */
  lemma DecideChanged(tools: Collaborators, isText: bool, fetched: FetchResult, previous: Option<string>, failure: bool)
    ensures var outcome := Decide(tools, isText, fetched, previous, failure);
            outcome.Changed? <==>
              !StartsWith(PageContent(fetched), ErrorPrefix) && previous.Some? && !failure &&
              Reread(tools, isText, previous.value) != Content(tools, isText, PageContent(fetched))
    ensures var outcome := Decide(tools, isText, fetched, previous, failure);
            outcome.Changed? ==> outcome.image == DiffImage(tools, Reread(tools, isText, previous.value), Content(tools, isText, PageContent(fetched)))
  {
  }

  /** The first visit of a site, whatever it fetched, sends nothing to the
      channel. */
  lemma FirstVisitSilent(tools: Collaborators, isText: bool, fetched: FetchResult, failure: bool)
    ensures !Decide(tools, isText, fetched, None, failure).Changed?
    ensures !StartsWith(PageContent(fetched), ErrorPrefix) ==> Decide(tools, isText, fetched, None, failure) == FirstRun
  {
  }

  /** Whatever a successful fetch stores is stripped. */
  lemma ContentStripped(tools: Collaborators, isText: bool, fetched: FetchResult)
    requires !StartsWith(PageContent(fetched), ErrorPrefix)
    ensures IsStripped(Content(tools, isText, PageContent(fetched)))
  {
    FormattedMarkupStripped(tools.prettify, PageContent(fetched));
  }

  /** A visit keeps every snapshot stripped. */
  lemma VisitKeepsStripped(tools: Collaborators, s: State, url: string, isText: bool, obs: Observation)
    requires AllStripped(s.snapshots)
    ensures AllStripped(Visit(tools, s, url, isText, obs).snapshots)
  {
    if !StartsWith(PageContent(obs.fetched), ErrorPrefix) {
      ContentStripped(tools, isText, obs.fetched);
    }
  }

  /** A visit keeps every other snapshot, and stores the new content under
      the URL's key unless the fetch failed. */
  lemma VisitSnapshots(tools: Collaborators, s: State, url: string, isText: bool, obs: Observation)
    ensures var after := Visit(tools, s, url, isText, obs).snapshots;
            forall key :: key in s.snapshots && key != SafeFilename(url) ==> key in after && after[key] == s.snapshots[key]
    ensures var after := Visit(tools, s, url, isText, obs).snapshots;
            StartsWith(PageContent(obs.fetched), ErrorPrefix) ==> after == s.snapshots
    ensures var after := Visit(tools, s, url, isText, obs).snapshots;
            !StartsWith(PageContent(obs.fetched), ErrorPrefix) ==>
              SafeFilename(url) in after && after[SafeFilename(url)] == Content(tools, isText, PageContent(obs.fetched))
  {
    FetchErrorIff(tools, isText, obs.fetched, Previous(s.snapshots, url), obs.failure);
    var after := Visit(tools, s, url, isText, obs).snapshots;
    if StartsWith(PageContent(obs.fetched), ErrorPrefix) {
      assert after == s.snapshots;
    } else {
      assert after == s.snapshots[SafeFilename(url) := Content(tools, isText, PageContent(obs.fetched))];
    }
  }

  lemma {:induction false} LogLinesAppend(events: seq<Event>, more: seq<Event>)
    ensures LogLines(events + more) == LogLines(events) + LogLines(more)
    decreases |more|
  {
    if more == [] {
      assert events + more == events;
    } else {
      var init := more[..|more| - 1];
      assert (events + more)[..|events + more| - 1] == events + init;
      LogLinesAppend(events, init);
    }
  }

  /** The events of a visit hold exactly one change-log line. */
  lemma {:induction false} EffectsLogLines(url: string, timestamp: string, outcome: Outcome)
    ensures LogLines(Effects(url, timestamp, outcome)) == 1
  {
    var e := Effects(url, timestamp, outcome);
    var init := e[..|e| - 1];
    assert LogLines(init) == 0 by {
      NoLogLines(init);
    }
  }

  lemma {:induction false} NoLogLines(events: seq<Event>)
    requires forall i :: 0 <= i < |events| ==> !events[i].LogLine?
    ensures LogLines(events) == 0
    decreases |events|
  {
    if events != [] {
      NoLogLines(events[..|events| - 1]);
    }
  }

  /** Visiting a list of sites appends exactly one change-log line per site. */
  lemma {:induction false} VisitAllLogLines(tools: Collaborators, s: State, sites: seq<Site>, observe: nat -> Observation, from: nat)
    ensures LogLines(VisitAll(tools, s, sites, observe, from).events) == LogLines(s.events) + |sites|
    decreases |sites|
  {
    if sites != [] {
      var site := sites[0];
      var isText := ModeOf(site.kind).PlainText?;
      var next := Visit(tools, s, site.url, isText, observe(from));
      var outcome := Decide(tools, isText, observe(from).fetched, Previous(s.snapshots, site.url), observe(from).failure);
      LogLinesAppend(s.events, Effects(site.url, observe(from).timestamp, outcome));
      EffectsLogLines(site.url, observe(from).timestamp, outcome);
      VisitAllLogLines(tools, next, sites[1..], observe, from + 1);
    }
  }

  /** Visiting a list of sites keeps every snapshot stripped. */
  lemma {:induction false} VisitAllKeepsStripped(tools: Collaborators, s: State, sites: seq<Site>, observe: nat -> Observation, from: nat)
    requires AllStripped(s.snapshots)
    ensures AllStripped(VisitAll(tools, s, sites, observe, from).snapshots)
    decreases |sites|
  {
    if sites != [] {
      var site := sites[0];
      var isText := ModeOf(site.kind).PlainText?;
      VisitKeepsStripped(tools, s, site.url, isText, observe(from));
      VisitAllKeepsStripped(tools, Visit(tools, s, site.url, isText, observe(from)), sites[1..], observe, from + 1);
    }
  }

  /** A run of `main` keeps every snapshot stripped. */
  lemma CycleKeepsStripped(tools: Collaborators, s: State, listing: Option<seq<string>>, observe: nat -> Observation)
    requires AllStripped(s.snapshots)
    ensures AllStripped(Cycle(tools, s, listing, observe).snapshots)
  {
    if listing.Some? && Sites(listing.value).Some? {
      VisitAllKeepsStripped(tools, s, Sites(listing.value).value, observe, 0);
    }
  }

  /** When the site list cannot be read or parsed, the only effect is one
      message to the administrator. */
  lemma CycleUnreadable(tools: Collaborators, s: State, listing: Option<seq<string>>, observe: nat -> Observation)
    requires listing.None? || exists i :: 0 <= i < |listing.value| && ParseLine(listing.value[i]).Malformed?
    ensures Cycle(tools, s, listing, observe) == State(s.snapshots, s.events + [AdminMessage(SiteListUnreadable)])
  {
    if listing.Some? {
      SitesNoneIff(listing.value);
    }
  }

  /** A run over a readable list logs one line per listed site. */
  lemma CycleLogLines(tools: Collaborators, s: State, lines: seq<string>, observe: nat -> Observation)
    requires forall i :: 0 <= i < |lines| ==> !ParseLine(lines[i]).Malformed?
    ensures LogLines(Cycle(tools, s, Some(lines), observe).events) == LogLines(s.events) + |Listings(Parse(lines))|
  {
    SitesNoneIff(lines);
    CollectIsListings(Parse(lines));
    VisitAllLogLines(tools, s, Sites(lines).value, observe, 0);
  }

  /** Re-reading a plain-text snapshot without carriage returns gives it
      back unchanged. */
  lemma RereadPlainText(tools: Collaborators, stored: string)
    requires IsStripped(stored) && '\r' !in stored
    ensures Reread(tools, true, stored) == stored
  {
    ReplaceAbsent(stored, "\r\n", "\n", 0);
    ReplaceAbsent(stored, "\r", "\n", 0);
    NormalizeWithoutCarriageReturn(stored);
    StripOfStripped(stored);
  }

  /** A plain-text page fetched again with the same body is reported
      unchanged, as long as its normalised text has no carriage return. */
  lemma RepeatedTextUnchanged(tools: Collaborators, body: string)
    requires !StartsWith(NormalizeText(body), ErrorPrefix) && '\r' !in NormalizeText(body)
    ensures Decide(tools, true, Page(body), Some(NormalizeText(body)), false) == Unchanged
  {
    RereadPlainText(tools, NormalizeText(body));
  }

  /** A change whose comparison raised is absorbed: the snapshot takes the
      new content anyway, so fetching the same page again reports nothing. */
  lemma FailedComparisonAbsorbed(tools: Collaborators, s: State, url: string, body: string, first: string, second: string)
    requires SafeFilename(url) in s.snapshots
    requires !StartsWith(NormalizeText(body), ErrorPrefix) && '\r' !in NormalizeText(body)
    ensures Decide(tools, true, Page(body), Previous(s.snapshots, url), true) == CompareError
    ensures var after := Visit(tools, s, url, true, Observation(Page(body), first, true));
            Visit(tools, after, url, true, Observation(Page(body), second, false)).events
              == after.events + [LogLine(url, second, None)]
  {
    var after := Visit(tools, s, url, true, Observation(Page(body), first, true));
    VisitSnapshots(tools, s, url, true, Observation(Page(body), first, true));
    assert Previous(after.snapshots, url) == Some(NormalizeText(body));
    RepeatedTextUnchanged(tools, body);
  }

  /** A plain-text page whose normalised text keeps a carriage return is
      reported changed on every visit, even with the same body: the
      snapshot comes back with its carriage returns turned into line feeds. */
  lemma RepeatedTextWithCarriageReturnChanged(tools: Collaborators, body: string)
    requires !StartsWith(NormalizeText(body), ErrorPrefix) && '\r' in NormalizeText(body)
    ensures Decide(tools, true, Page(body), Some(NormalizeText(body)), false).Changed?
  {
    var stored := NormalizeText(body);
    var back := ReadBack(stored);
    var crlf := Replace(back, "\r\n", "\n");
    ReplaceKeepsAbsent(back, "\r\n", "\n", '\r');
    if '\r' in Strip(crlf) {
      StripChars(crlf, '\r');
    }
    assert '\r' !in Reread(tools, true, stored);
  }

  /** For instance the page `a CR CR LF b`. */
  lemma CarriageReturnExample(tools: Collaborators)
    ensures Decide(tools, true, Page("a\r\r\nb"), Some(NormalizeText("a\r\r\nb")), false).Changed?
  {
    ReplaceCrlfFirst();
    StripOfStripped("a\r\nb");
    assert NormalizeText("a\r\r\nb") == "a\r\nb";
    assert ("a\r\nb")[1] == '\r';
    RepeatedTextWithCarriageReturnChanged(tools, "a\r\r\nb");
  }
}
