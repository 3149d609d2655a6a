# Episode-guide crawler: token classification and scan

This project models the extraction core of a small Go crawler that fetches one
episode-guide page and sends labelled strings for each episode title, episode
summary and episode link it finds in the page's HTML.

- `strings.dfy` (module `Strings`): substring search. It stands in for Go's
  `strings.Contains`, and it is proved against the definition "occurs at some
  position".
- `wrappers.dfy` (module `Wrappers`): `Option`.
- `html.dfy` (module `Html`): attributes and the tokenizer's token kinds (start
  tag, end tag, self-closing tag, text, comment, doctype, error). A page is given
  as the sequence of tokens the tokenizer would produce.
- `classify.dfy` (module `Classify`): `isTitle`, `isSummary` and `getHref`, each
  as a method with the Go function's loop. Each is proved against a reference
  definition:
  - `Marked`: some attribute value contains the marker.
  - `LastHref` and `LinkTarget`: the last `href` value, and only when the link
    marker is present.
- `crawler.dfy` (module `Crawler`): the token loop of `crawl`.
  - `Next` and `Emit` give the flag transition and the lines sent for one token.
  - `Extract` is the whole scan as a function.
  - `ScanToken` is the body of the loop's `switch`, written imperatively.
  - `Crawl` is the loop, with the flags as loop variables and the sent lines
    as an output sequence.
  - Lemmas cover composition, stopping at the first error, bounds, what
    each flag requires, and the fact that links do not depend on the flags.
- `scenarios.dfy` (module `Scenarios`): concrete pages. These include a page
  with two episode blocks, a page on which both flags are on at once, and the
  classifier's edge cases.

Notes on the model:
- A failed fetch is the input `None`. In that case nothing is sent.
- Running out of tokens stands for the tokenizer's end-of-document error token.
  The scan treats that token like any other error token.
- Strings are sequences of characters, while Go's `strings.Contains` compares
  bytes. The three markers are ASCII, so for any UTF-8 attribute value the two
  agree on whether a marker occurs.
- `fmt.Sprintf("Title  : %s", x)` is the concatenation `TitleLabel + x`. The
  same holds for the summary and link labels.

Facts about the code that the model keeps:
- A marked `h3` leaves the summary flag as it was, so both flags can be on
  together (`BothFlagsAtOnce`).
- `isTitle`, `isSummary` and `getHref` look only at attribute values (and
  `getHref` at the `href` key); the loop checks the tag names `h3`, `p` and `a`.
- `main` does not group the strings into records; it appends each one to a
  list in arrival order. So no grouping is modelled.
- A self-closing tag is a token kind of its own, and the loop's `switch` ignores
  it. So `<a .../>` never yields a link (`SelfClosingAnchorSendsNothing`).

## Model

| member | source | states |
|---|---|---|
| Strings.Contains | main.go:13 | marker search: true exactly when the marker occurs at some position of the value |
| Classify.LastHref | main.go:36-39 | the result is present iff some attribute has key `href`, and it is then the value of the last such attribute |
| Classify.LastHrefExtend | main.go:36-39 | an `href` in the next attribute replaces the one found so far; any other attribute keeps it |
| Classify.MarkedExtend | main.go:12-16 | the marker is found among one more attribute iff it was found before or the new value contains it |
| Classify.LinkTarget | main.go:29-50 | no link unless some attribute value contains the link marker, even when an `href` exists; with the marker, a link iff an `href` exists, and it is the last `href` |
| Classify.IsTitle | main.go:11-18 | true iff some attribute value (not key) contains `episodeGuide-episodeTitle` |
| Classify.IsSummary | main.go:20-27 | true iff some attribute value contains `episodeGuide-episodeSummary` |
| Classify.GetHref | main.go:29-50 | `(true, last href)` when the link marker and an `href` are present, otherwise `(false, "")` |
| Crawler.AnchorLink | main.go:94-99 | a start tag reports a link iff it is named `a`, some attribute value carries the link marker and it has an `href`; the link is then the tag's last `href` value |
| Crawler.OpensTitle | main.go:82 | a marked `h3` start tag; such a tag never opens a summary and never reports a link |
| Crawler.OpensSummary | main.go:88 | a marked `p` start tag; such a tag never reports a link |
| Crawler.Next | main.go:82-92 | non-start tokens keep both flags; after a start tag, the title flag is on iff the tag is a marked `h3`; the summary flag is on iff the token is a marked `p`, or it was on and the token is a marked `h3` or not a start tag |
| Crawler.Emit | main.go:94-112 | a start tag sends nothing unless it reports a link, and then exactly one line, `Link   : ` followed by its last `href` value; text sends at most two lines, the title line first and the summary line last, one per flag that is on; other tokens send nothing |
| Crawler.ScanToken | main.go:79-112 | the `switch` body for one non-error token gives exactly the flags `Next` and the lines `Emit` |
| Crawler.Crawl | main.go:52-114 | a failed fetch sends nothing; otherwise the lines sent, in order, are `Extract` of the page from both flags off |
| Crawler.Extract | main.go:72-113 | the lines the loop sends, from given flags up to the first error token; at most two per token |
| Crawler.FlagsAfter | main.go:82-92 | the flags after a run of tokens: unchanged when the run has no start tag; a flag is on at the end only if it was on at the start or a marked `h3` (title) or marked `p` (summary) came |
| Crawler.CrawlStep | main.go:72-113 | appending one non-error token's lines to what was sent keeps the sent lines followed by the rest of the scan equal to the scan from this token on |
| Crawler.ExtractStep | main.go:72-113 | one loop turn: a non-error token's lines come first, then the rest of the scan under the updated flags |
| Crawler.ExtractAppend | main.go:72-113 | the output for a concatenation of error-free tokens is the first part's output followed by the second part's output under the flags the first part leaves |
| Crawler.FlagsAfterAppend | main.go:82-92 | the flags after a concatenation are those after scanning the second part from the flags the first part leaves |
| Crawler.StopsAtFirstError | main.go:76-78 | tokens after the first error token contribute nothing |
| Crawler.ExtractWithinBudget | main.go:94-112 | the scan sends at most one line per start tag and two per text token before the first error |
| Crawler.ExtractGrowsByAppending | main.go:72-113 | lines are sent as the scan goes: the output for a prefix of the page is a prefix of the page's output |
| Crawler.LabelsDisjoint | main.go:97-111 | title, summary and link lines are told apart by their labels |
| Crawler.NoTitleWithoutMarkedH3 | main.go:82-86 | with the title flag off and no marked `h3`, no title line is sent |
| Crawler.NoSummaryWithoutMarkedP | main.go:88-92 | with the summary flag off and no marked `p`, no summary line is sent |
| Crawler.LinesAreLabelled | main.go:94-112 | every line sent is a title, summary or link line |
| Crawler.OnlyLinksBeforeFirstMarkedTag | main.go:70-71 | the flags start off, so tokens with no marked `h3` or `p` among them send only link lines |
| Crawler.LinksIgnoreFlags | main.go:94-99 | the link lines sent are exactly one per marked `a` start tag with an `href`, in document order, whatever the flags; text never sends a link |
| Scenarios.MarkersFound | main.go:82-99 | a `class` attribute holding the marker makes `h3`, `p` and `a` tags marked; the `a` tag's link is its `href` |
| Scenarios.TagTextEnd | main.go:100-112 | a tag, its text and its end tag send the text under the flags the tag sets |
| Scenarios.BlockParts | main.go:82-112 | a marked `h3` and its text send the title and turn on only the title flag; a marked `p` and its text send the summary and leave only the summary flag on; a marked `a` sends its link and clears both flags |
| Scenarios.BlockLines | main.go:70-113 | one episode block sends its title, summary and link, in that order, and leaves both flags off |
| Scenarios.TwoEpisodePage | main.go:70-113 | for any texts and links, a page of two episode blocks sends title, summary and link of the first block, then of the second, in that order |
| Scenarios.BothFlagsAtOnce | main.go:82-112 | a marked `p` followed by a marked `h3` turns both flags on; the next text sends a title line and then a summary line |
| Scenarios.SelfClosingAnchorSendsNothing | main.go:75-113 | a self-closing `<a .../>` sends no link |
| Scenarios.LinkNeedsMarkerAndHref | main.go:29-50 | an `href` without the marker gives no link; the marker without an `href` gives no link |
| Scenarios.MarkerInHrefCounts | main.go:32-39 | the marker inside the `href` value itself marks the tag, and that value is the link |
| Scenarios.MarkerInKeyIgnored | main.go:11-18 | the marker in an attribute key does not mark the tag |

## Left out

- The HTTP fetch, closing the response body and the "Failed to crawl" message
  (main.go:53-66) are network I/O. A failed fetch is the input `None`, and the
  page is otherwise given as its token sequence.
- The HTML tokenizer (`html.NewTokenizer`, `z.Next`, `z.Token`) is a foreign
  library. Its output is the abstract token sequence, and tag names and text are
  taken as it would deliver them.
- The goroutine, the channels, the deferred completion send and the `select`
  collection loop in `main` (main.go:55-58, 122-138) are concurrency. With one
  seed URL, the collected list is the crawl's output in arrival order, and
  `Crawl` returns exactly that sequence.
- Printing the results (main.go:142-146) is stdout I/O.
- Separate channel sends within one token: `ScanToken` returns a token's lines
  as one sequence, and `Crawl` appends it in one step. The order and contents
  of the lines are the same as with one send per line.
