# Website change monitor: a verified model of its core

`check_sites.py` watches a list of web pages. Each run does the following:

- It reads the site list: one `kind|url` line per site, with blank lines and `#` comments skipped.
- It fetches every page and normalises the text.
- For markup pages it prettifies the text and collapses runs of blank lines.
- It compares the result with the snapshot stored under a file name derived from the URL.
- It reports what it found, and then overwrites the snapshot.

It reports through Telegram:

- An unreachable page or a first fetch becomes a message to the administrator.
- A changed page becomes a picture of the unified diff, posted to a channel.
- Every visit, even a failed one, appends a line to the change log.

The picture is laid out by greedy word wrapping. Its size is clamped, and each line is coloured by its first character.

This project models that core in Dafny and proves what it promises. The model is split into these modules:

- `Strings`: the Python `str` operations the program relies on.
  - `isspace`, `strip`, `lstrip` and `rstrip`, and `startswith`.
  - `replace`: left to right, without overlaps.
  - `splitlines`: every Unicode line break ends a line, CRLF counts as one, and a final terminator adds no empty line.
  - `"\n".join`.
- `Normalize`: `normalize_text` and `safe_filename`.
- `Formatting`:
  - the blank-line pass of `format_html_content`, as a loop proved against the function `Collapsed`;
  - the fallback that returns the input when the markup library raises.
- `Wrapping`: `wrap_line`.
  - Its first loop (`SplitTokens`) is proved to compute `Tokenize`.
  - Its greedy packing is the function `Pack`.
- `Rendering`: the geometry of `diff_to_image`.
  - The processed lines, the running maximum width and the drawing loop are three loops.
  - Each is proved against a function.
  - The result is the canvas size and the (text, y, colour) of every row.
- `SiteList`: the reading loop of `main` over the site list, and the mapping from kind to mode.
- `Monitor`: `compare_and_notify` and the site loop of `main`.
  - They are methods of a class `Monitor`.
  - It holds the snapshot files as a map from key to text, and an append-only record of events: admin messages, channel photos and change-log lines.
  - The methods are proved against the functions `Decide`, `Effects`, `Visit` and `Cycle`.

The model treats its external inputs and libraries this way:

- A fetch is given as its result: a page body, or the message of the exception the fetch raised.
- The markup library, `difflib.unified_diff` and the font are the functions of the record `Collaborators`:
  - `prettify` yields `None` where the library raises;
  - `measure` is the width of a text;
  - `letterHeight` is the height of the letter "A".
- Timestamps are parameters.
- Whether the comparison step raised is a boolean input.

Points of behaviour the proofs bring out:

- Errors are signalled in-band.
  - `get_page_content` returns `"ERROR: ..."` when a fetch raises.
  - `compare_and_notify` treats any content starting with `ERROR:` as a failed fetch.
  - So a real page whose normalised text starts with `ERROR:` is reported as unreachable, and its snapshot is never updated (`ErrorPageMisclassified`).
- `normalize_text` replaces CRLF once and does not touch a lone CR, so it is not idempotent.
  - `"a\r\r\nb"` becomes `"a\r\nb"`, and then `"a\nb"`.
  - Snapshots are written as they are but read back with Python's universal newlines (`ReadBack`), which turn every CR and CRLF into LF.
  - So a plain-text page whose normalised text still holds a CR is reported as changed on every visit, with no change to the page (`RepeatedTextWithCarriageReturnChanged`, `CarriageReturnExample`).
  - Without a CR, the same page is reported unchanged (`RepeatedTextUnchanged`).
- When the comparison raises, the new content still becomes the snapshot.
  - For a CR-free plain-text page, a change whose notification failed is therefore never reported (`FailedComparisonAbsorbed`).
- Distinct URLs can share a snapshot file, for example `a/b` and `a?b` (`SafeFilenameCollision`).

`check_sites.py` has no line-number gutter, no stylesheet reformatting and no rate-limited concurrent notifier, so the model has none either.

## Model

| member | source | states |
|---|---|---|
| Normalize.NormalizeText | check_sites.py:33-34 | the normalised text has no leading or trailing whitespace and is never longer than its input |
| Normalize.NormalizeWithoutCarriageReturn | check_sites.py:33-34 | on text without a CR, normalising is plain `strip`, and normalising twice gives what normalising once does |
| Normalize.NormalizeNotIdempotent | check_sites.py:33-34 | normalising is not idempotent in general: `"a\r\r\nb"` gives `"a\r\nb"` once and `"a\nb"` twice |
| Normalize.CrlfRoundTrip | check_sites.py:34 | turning every LF of a CR-free text into CRLF and then applying the CRLF-to-LF replacement gives the text back |
| Normalize.NormalizeLineEndings | check_sites.py:33-34 | a CR-free text normalises to the same result with LF or with CRLF line endings |
| Normalize.SafeFilename | check_sites.py:76-77 | the snapshot key has no `/`, `?` or `&` and is never longer than the URL |
| Normalize.SafeFilenameIdentity | check_sites.py:76-77 | a URL is its own key exactly when it has no `/`, `?` or `&` |
| Normalize.SafeFilenameCollision | check_sites.py:76-77 | the distinct URLs `a/b` and `a?b` share the key `a_b` |
| Strings.StripEmptyIffAllSpace | check_sites.py:102 | `line.strip() == ""` holds exactly when every character of the line is whitespace |
| Strings.StripIdempotent | check_sites.py:34 | stripping a stripped text changes nothing |
| Strings.ReplaceShrinks | check_sites.py:77 | replacing a pattern by a string no longer than it never lengthens the text |
| Strings.ReplaceRemoves | check_sites.py:77 | replacing a one-character pattern by a string without that character leaves no occurrence of it |
| Strings.SplitLinesNoBreak | check_sites.py:101 | no line that `splitlines` returns contains a line break |
| Strings.JoinSplitLines | check_sites.py:101-110 | joining with LF the lines of a text whose only line break is LF, and which does not end in one, gives the text back |
| Strings.VisibleRStrip | check_sites.py:150 | `rstrip` removes no non-whitespace character |
| Formatting.TrailingBlanks | check_sites.py:100-107 | `empty_count` after reading some lines is the length of their trailing run of blank lines: those lines are blank and the line just before them is not |
| Formatting.CollapseBlankLines | check_sites.py:99-108 | the loop keeps exactly the lines of `Collapsed`: a blank line is kept only when fewer than two blank lines precede it directly |
| Formatting.CollapsedAtMostTwoBlankRun | check_sites.py:99-108 | the kept lines never hold three blank lines in a row |
| Formatting.CollapsedTrailingBlanks | check_sites.py:99-108 | the kept lines end in as many blank lines as the input, capped at two |
| Formatting.CollapsedKeepsContent | check_sites.py:99-108 | every non-blank line is kept, in the original order |
| Formatting.CollapsedSubsequence | check_sites.py:99-108 | the kept lines are a subsequence of the input lines |
| Formatting.CollapsedFixedPoint | check_sites.py:99-108 | the pass leaves the lines unchanged exactly when they hold no three blank lines in a row |
| Formatting.CollapsedIdempotent | check_sites.py:99-108 | running the pass twice gives what running it once does |
| Formatting.FormatHtmlContent | check_sites.py:80-113 | when the markup library raises, the input comes back unchanged; otherwise the result is the collapsed, LF-joined, normalised prettified text, which is stripped |
| Formatting.FormattedMarkupStripped | check_sites.py:80-113 | formatting a stripped text gives a stripped text on both paths |
| Wrapping.SplitTokens | check_sites.py:118-132 | the first loop of `wrap_line` builds exactly the token list `Tokenize(line)` |
| Wrapping.TokenizeConcat | check_sites.py:118-132 | concatenating the tokens gives back the line |
| Wrapping.TokenizeTokens | check_sites.py:122-132 | every token is a single whitespace character or a non-empty run without whitespace |
| Wrapping.TokenizeMaximal | check_sites.py:122-132 | runs of non-whitespace are maximal: no two word tokens are adjacent |
| Wrapping.WrapLine | check_sites.py:116-158 | `wrap_line` returns the greedy packing `Wrap` of the line's tokens |
| Wrapping.WrapKeepsVisible | check_sites.py:134-158 | the wrapped lines, concatenated, hold the same non-whitespace characters as the line, in the same order |
| Wrapping.WrapNoTrailingSpace | check_sites.py:149-156 | no wrapped line ends in whitespace |
| Wrapping.WrapCount | check_sites.py:134-158 | there are never more wrapped lines than tokens, and an empty line gives no lines |
| Wrapping.WrapSingleWord | check_sites.py:134-158 | a line without whitespace comes out as that one line, however wide |
| Wrapping.WrapKeepsWords | check_sites.py:134-158 | no word is ever split: every word of the line appears whole within one wrapped line, whatever the font |
| Wrapping.WrapWideToken | check_sites.py:149-151 | with a monotone font, a word wider than the maximum is never split: it is one of the wrapped lines |
| Wrapping.WrapFitting | check_sites.py:149-156 | with a monotone font, a line that fits comes out as one line, right-stripped |
| Wrapping.WrapLinesFit | check_sites.py:149-153 | with a monotone font, every wrapped line fits the maximum unless it is a single over-wide token |
| Rendering.Fill | check_sites.py:247-254 | a line is green exactly when it starts with `+`, red exactly when with `-`, blue exactly when with `@`, and black otherwise |
| Rendering.Render | check_sites.py:161-257 | the canvas is at most 2000 high, and its width lies between the minimum and maximum widths whenever the minimum is not larger |
| Rendering.ProcessLines | check_sites.py:213-223 | the first loop of `diff_to_image` yields `Processed`: every line in order, each wider than the budget replaced by its wrapped lines |
| Rendering.MaxLineWidth | check_sites.py:228-234 | the second loop yields `Widest`, the largest measured width or 0 |
| Rendering.DrawRows | check_sites.py:243-257 | the drawing loop yields the rows `DrawFrom(lines, 10, lineHeight)` |
| Rendering.DiffToImage | check_sites.py:161-257 | `diff_to_image` draws the canvas `Render` of the diff text |
| Rendering.RenderRows | check_sites.py:244-257 | there is one row per processed line; row `i` shows line `i` at `y = 10 + i * line_height`, in the colour of its first character |
| Rendering.RenderHeight | check_sites.py:208-226 | the height is `line_height * n + 20` for `n` processed lines, capped at 2000 |
| Rendering.WidestIsMaximum | check_sites.py:228-234 | `max_line_width` is at least every line's width, and it is 0 or the width of one of them |
| Rendering.RenderWidthFits | check_sites.py:237 | when the canvas is narrower than the maximum width, every processed line with its two 10-pixel margins fits in it |
| Rendering.ProcessedKeepsVisible | check_sites.py:213-223 | processing keeps every non-whitespace character of the diff, in order |
| Rendering.ProcessedNarrow | check_sites.py:219-223 | when every line fits the budget, the processed lines are the input lines verbatim |
| Rendering.ProcessedSplit | check_sites.py:213-223 | each input line is processed on its own: processing two halves and concatenating is processing the whole |
| SiteList.SplitOnce | check_sites.py:365 | there is no split exactly when the separator is absent; otherwise the line is the first half, the separator and the second half, and the first half has no separator |
| SiteList.ModeOf | check_sites.py:375-376 | the kind `dynamic` means a browser fetch and `txt` a plain-text comparison; anything else is static markup |
| SiteList.ParseSites | check_sites.py:358-371 | the reading loop returns `Sites(lines)`: the listed sites, or nothing when a line is malformed |
| SiteList.CollectNoneIff | check_sites.py:365-371 | the list is abandoned exactly when one of its entries is malformed |
| SiteList.SitesNoneIff | check_sites.py:361-371 | the list is abandoned exactly when a line that is not skipped has no vertical bar |
| SiteList.CollectIsListings | check_sites.py:358-366 | when the list is read, its sites are those of the listed lines, in file order |
| SiteList.ListingsCount | check_sites.py:358-366 | there are never more sites than lines |
| SiteList.ParseLineListed | check_sites.py:362-366 | a listed site has a stripped kind without a vertical bar and a stripped URL |
| SiteList.FormatRoundTrip | check_sites.py:362-366 | the line of a site, its kind and URL joined by a vertical bar, for a stripped kind that has no vertical bar and no leading `#`, and a stripped URL, reads back as that site |
| SiteList.SplitOnceAt | check_sites.py:365 | splitting `a + sep + b` at the first separator gives `a` and `b` when `a` has no separator |
| Monitor.PageContent | check_sites.py:37-73 | the page content is the normalised body, which is stripped and no longer than the body, or, when the fetch raised, a text starting with `ERROR:` |
| Monitor.ReadBack | check_sites.py:289 | a snapshot read back with universal newlines holds no CR |
| Monitor.CompareContents | check_sites.py:288-319 | the comparison re-reads the snapshot, re-formats and normalises it, and reports a change, with the image of the diff, exactly when it differs from the new content |
| Monitor.Effects | check_sites.py:270-330 | a visit records exactly one change-log line, and it comes last; it carries an access error exactly on the fetch-error path; a channel photo is sent exactly when the page changed |
| Monitor.Monitor.CompareAndNotify | check_sites.py:263-330 | the outcome is `Decide` of the fetch and the existing snapshot; the events of the outcome are appended; the snapshot takes the new content unless the fetch failed |
| Monitor.Monitor.Refresh | check_sites.py:281-330 | after a successful fetch: the outcome is a first run, a comparison failure or the comparison; its events are appended; the snapshot takes the new content |
| Monitor.Monitor.RunCycle | check_sites.py:357-383 | the site loop of `main` leaves the monitor in the state `Cycle`: every listed site visited in order, or one admin message when the list cannot be read |
| Monitor.FetchErrorIff | check_sites.py:270-275 | the fetch-error path is taken exactly when the content starts with `ERROR:`, and always when the fetch raised |
| Monitor.ErrorPageMisclassified | check_sites.py:270 | a page whose normalised text starts with `ERROR:` is treated as a failed fetch |
| Monitor.DecideChanged | check_sites.py:281-317 | a change is reported exactly when the fetch succeeded, a snapshot exists, comparing did not raise, and the re-read snapshot differs from the new content; the image is that of their diff |
| Monitor.FirstVisitSilent | check_sites.py:281-286 | with no snapshot the channel gets nothing, and a successful fetch is a first run |
| Monitor.ContentStripped | check_sites.py:277-330 | whatever a successful fetch stores is stripped |
| Monitor.VisitKeepsStripped | check_sites.py:325-330 | a visit keeps every snapshot stripped |
| Monitor.VisitSnapshots | check_sites.py:270-330 | a visit changes no other snapshot, leaves all of them alone on a fetch error, and otherwise stores the new content under the URL's key |
| Monitor.EffectsLogLines | check_sites.py:270-327 | every visit writes exactly one change-log line |
| Monitor.VisitAllLogLines | check_sites.py:374-379 | visiting a list of sites writes exactly one change-log line per site |
| Monitor.CycleKeepsStripped | check_sites.py:357-383 | a run keeps every snapshot stripped |
| Monitor.CycleUnreadable | check_sites.py:368-371 | when the list cannot be read or has a malformed line, the only effect is one admin message |
| Monitor.CycleLogLines | check_sites.py:358-379 | a run over a readable list writes one change-log line per listed site |
| Monitor.RereadPlainText | check_sites.py:289-294 | a stripped CR-free plain-text snapshot re-reads as itself |
| Monitor.RepeatedTextUnchanged | check_sites.py:289-319 | fetching a CR-free plain-text page again with the same body reports it unchanged |
| Monitor.FailedComparisonAbsorbed | check_sites.py:320-330 | for a CR-free plain-text page, a comparison that raised still stores the new content, so the next identical fetch records only its log line |
| Monitor.RepeatedTextWithCarriageReturnChanged | check_sites.py:283-296 | a plain-text page whose normalised text keeps a CR is reported changed when fetched again with the same body |
| Monitor.CarriageReturnExample | check_sites.py:289-296 | for instance the body `a CR CR LF b` |

## Left out

- Fetching (check_sites.py:37-58, 61-70): Playwright, `requests`, timeouts and the choice of user agent, including the `"m." in domain` test, are network I/O. The model starts from the fetch's result, and `PageContent` keeps the normalising and the in-band error text.
- Telegram calls: they are recorded as `Event`s. A send that raises is not modelled.
  - A `send_photo` that raises (check_sites.py:312-316) is inside the comparison `try` and is caught at check_sites.py:320-323. The model covers it with the `failure` input (`CompareError`).
  - Three sends are outside that `try`: the unreachable-page message (check_sites.py:272), the first-run message (check_sites.py:285) and the comparison-failure message (check_sites.py:323). If one of them raises, the exception escapes to `main`'s per-site handler (check_sites.py:380-383), and the change-log line of that visit is skipped.
  - On the fetch-error path there is no snapshot write to skip.
  - After a failed first-run message, the snapshot was already written at check_sites.py:283, so the next visit is not a first run.
  - After a failed comparison-failure message, the old snapshot stays, because the write at check_sites.py:330 is skipped.
- `main`'s per-site exception handler (check_sites.py:380-383): the model has no other exceptions inside `compare_and_notify`.
- The comparison exception (check_sites.py:320-323) is a boolean input. When it is set, the model decides the outcome before anything is sent, so a diff image that was sent before the exception is not modelled.
- `monitor.log` logging, the logging setup, the environment variables and directory creation (check_sites.py:15-25, 334-344): configuration and I/O.
- The font-presence check in `main` (check_sites.py:347-355): I/O.
- Wall-clock time (check_sites.py:29-30): timestamps are parameters.
- BeautifulSoup parsing, whitespace squeezing, `prettify` and `html.unescape` (check_sites.py:84-96): a foreign library, modelled as `Collaborators.prettify`.
- `difflib.unified_diff` (check_sites.py:298-304): a foreign library, modelled as `Collaborators.unifiedDiff` on the two line lists.
- Font loading and fallback fonts, bounding boxes, pixels and PNG saving (check_sites.py:173-207, 240, 256, 259): the font is `Collaborators.measure` and `Collaborators.letterHeight`, and the canvas lists its rows instead of pixels.
- Snapshot file I/O: writing is taken to store the text as given (POSIX newline handling). A read or write that fails, and the `errors="ignore"` decoding, are not modelled; the snapshot files are a map.
- The site list file: it is given as its lines (`None` when it cannot be opened). How Python's file iteration splits the file into lines is not modelled.
- Wrapping.WrapWideToken: it is stated for a monotone font (text is at least as wide as each of its parts). With an arbitrary `measure`, a wide token can be joined to the previous line.
- Wrapping.WrapFitting: it is stated for a monotone font, for the same reason.
- Wrapping.WrapLinesFit: it is stated for a monotone font, for the same reason.
- Monitor.FailedComparisonAbsorbed: it is stated for a CR-free plain-text page only. For a markup page the stored snapshot is formatted again when it is re-read, and with an arbitrary `prettify` that need not give the stored text back, so the next identical fetch can still be reported as changed.
