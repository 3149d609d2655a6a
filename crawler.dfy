/**
 The token scan of `crawl`: two flags say whether the text that follows is an
 episode title and/or an episode summary; start tags set and clear them, text
 tokens are reported under the labels the flags select, and marked anchors
 report their link. Every report is one string sent to the collector, in
 document order; the scan stops at the tokenizer's first error token.
 */
module Crawler {
  import opened Strings
  import opened Wrappers
  import opened Html
  import opened Classify

  const TitleLabel: string := "Title  : "
  const SummaryLabel: string := "Summary: "
  const LinkLabel: string := "Link   : "

  /** The scan's state: inside an episode title, inside an episode summary. */
  datatype Flags = Flags(title: bool, summary: bool)

  /** Both flags start false. */
  const Idle: Flags := Flags(false, false)

  /**
   The link a start tag `<a>` reports, if any: only a start tag named `a`
   that carries the link marker and an `href` has one.
   */
  function AnchorLink(t: Token): (r: Option<string>)
    ensures r.Some? <==> t.StartTag? && t.name == "a" && Marked(t.attrs, LinkMarker) && HasHref(t.attrs)
    ensures r.Some? ==> r == LastHref(t.attrs)
  {
    if t.StartTag? && t.name == "a" then LinkTarget(t.attrs) else None
  }

  /**
   A start tag `<h3>` whose attributes carry the title marker. Such a tag
   never opens a summary and never reports a link.
   */
  predicate OpensTitle(t: Token)
    ensures OpensTitle(t) ==> !OpensSummary(t) && AnchorLink(t).None?
  {
    t.StartTag? && t.name == "h3" && Marked(t.attrs, TitleMarker)
  }

  /** A start tag `<p>` whose attributes carry the summary marker. Such a tag never reports a link. */
  predicate OpensSummary(t: Token)
    ensures OpensSummary(t) ==> AnchorLink(t).None?
  {
    t.StartTag? && t.name == "p" && Marked(t.attrs, SummaryMarker)
  }

  /**
   How one token moves the flags: a marked `h3` sets the title flag and keeps
   the summary flag, a marked `p` sets the summary flag, every other start tag
   clears the title flag, and only a marked `h3` or `p` keeps the summary
   flag from being cleared. Other tokens change nothing.
   */
  function Next(f: Flags, t: Token): (g: Flags)
    ensures !t.StartTag? ==> g == f
    ensures g.title <==> OpensTitle(t) || (!t.StartTag? && f.title)
    ensures g.summary <==> OpensSummary(t) || ((OpensTitle(t) || !t.StartTag?) && f.summary)
  {
    if !t.StartTag? then f
    else if OpensTitle(t) then Flags(true, f.summary)
    else if OpensSummary(t) then Flags(false, true)
    else Idle
  }

  /** The most a token can emit: one line for a start tag, two for text. */
  function Weight(t: Token): nat {
    match t
    case StartTag(_, _) => 1
    case Text(_) => 2
    case _ => 0
  }

  /**
   The lines one token emits under flags `f`: for a start tag, only its link
   line when it reports one (its last `href`); for text, the title line and
   then the summary line; nothing otherwise.
   */
  function Emit(f: Flags, t: Token): (out: seq<string>)
    ensures |out| <= Weight(t)
    ensures t.Text? ==> |out| == (if f.title then 1 else 0) + (if f.summary then 1 else 0)
    ensures t.Text? && f.title ==> out[0] == TitleLabel + t.data
    ensures t.Text? && f.summary ==> out[|out| - 1] == SummaryLabel + t.data
    ensures t.StartTag? ==> (out == [] <==> AnchorLink(t).None?)
    ensures t.StartTag? && AnchorLink(t).Some? ==> out == [LinkLabel + LastHref(t.attrs).value]
    ensures !t.StartTag? && !t.Text? ==> out == []
  {
    match t
    case StartTag(_, _) =>
      var link := AnchorLink(t);
      if link.Some? then [LinkLabel + link.value] else []
    case Text(data) =>
      (if f.title then [TitleLabel + data] else []) + (if f.summary then [SummaryLabel + data] else [])
    case _ => []
  }

  /**
   The lines the scan sends for `tokens`, starting from flags `f`, up to the
   first error: never more than two per token.
   */
  function Extract(tokens: seq<Token>, f: Flags): (r: seq<string>)
    ensures |r| <= 2 * |tokens|
  {
    if tokens == [] || tokens[0].Error? then []
    else Emit(f, tokens[0]) + Extract(tokens[1..], Next(f, tokens[0]))
  }

  /**
   The flags after every token of `tokens`, starting from `f`; on error-free
   tokens, the loop's state after them. Only start tags move them: a flag can
   be on at the end only if it was on at the start or some marked tag opened it.
   */
  function FlagsAfter(tokens: seq<Token>, f: Flags): (g: Flags)
    ensures (forall j :: 0 <= j < |tokens| ==> !tokens[j].StartTag?) ==> g == f
    ensures g.title ==> f.title || exists j :: 0 <= j < |tokens| && OpensTitle(tokens[j])
    ensures g.summary ==> f.summary || exists j :: 0 <= j < |tokens| && OpensSummary(tokens[j])
    decreases |tokens|
  {
    if tokens == [] then f
    else
      var g := FlagsAfter(tokens[1..], Next(f, tokens[0]));
      assert forall j :: 0 <= j < |tokens| - 1 ==> tokens[1..][j] == tokens[j + 1];
      g
  }

  /** The sum of the weights of the tokens before the first error. */
  function Budget(tokens: seq<Token>): nat {
    if tokens == [] || tokens[0].Error? then 0
    else Weight(tokens[0]) + Budget(tokens[1..])
  }

  /** The token sequence holds no error token. */
  predicate NoError(tokens: seq<Token>) {
    forall j :: 0 <= j < |tokens| ==> !tokens[j].Error?
  }

  /**
   One pass of the scan loop's `switch` for a token that is not an error:
   the flags after the token and the lines it sends, in order.
   */
  method ScanToken(t: Token, foundTitle: bool, foundSummary: bool)
    returns (title: bool, summary: bool, lines: seq<string>)
    requires !t.Error?
    ensures Flags(title, summary) == Next(Flags(foundTitle, foundSummary), t)
    ensures lines == Emit(Flags(foundTitle, foundSummary), t)
  {
    title, summary, lines := foundTitle, foundSummary, [];
    match t
    case StartTag(name, attrs) =>
      var isTitle := false;
      if name == "h3" {
        isTitle := IsTitle(attrs);
      }
      if isTitle {
        title := true;
        return;
      }
      title := false;
      var isSummary := false;
      if name == "p" {
        isSummary := IsSummary(attrs);
      }
      if isSummary {
        summary := true;
        return;
      }
      summary := false;
      if name == "a" {
        var ok, href := GetHref(attrs);
        if ok {
          lines := lines + [LinkLabel + href];
        }
      }
    case Text(data) =>
      if foundTitle {
        lines := lines + [TitleLabel + data];
      }
      if foundSummary {
        lines := lines + [SummaryLabel + data];
      }
    case _ =>
  }

  /**
   The crawl of one page. `page` is `None` when the fetch failed: nothing is
   sent then. Otherwise the page's tokens are scanned in order; running out of
   tokens stands for the tokenizer's end-of-document error token.
   */
  method Crawl(page: Option<seq<Token>>) returns (sent: seq<string>)
    ensures page.None? ==> sent == []
    ensures page.Some? ==> sent == Extract(page.value, Idle)
  {
    sent := [];
    if page.None? {
      return;
    }
    var tokens := page.value;
    var foundTitle, foundSummary := false, false;
    var i := 0;
    while i < |tokens|
      invariant 0 <= i <= |tokens|
      invariant sent + Extract(tokens[i..], Flags(foundTitle, foundSummary)) == Extract(tokens, Idle)
    {
      var t := tokens[i];
      if t.Error? {
        return;
      }
      ghost var f := Flags(foundTitle, foundSummary);
      var lines;
      foundTitle, foundSummary, lines := ScanToken(t, foundTitle, foundSummary);
      CrawlStep(tokens, i, f, sent);
      sent := sent + lines;
      i := i + 1;
    }
  }

  /** One step of the scan: a token that is not an error emits its lines, then the rest follows. */
  lemma ExtractStep(tokens: seq<Token>, i: nat, f: Flags)
    requires i < |tokens| && !tokens[i].Error?
    ensures Extract(tokens[i..], f) == Emit(f, tokens[i]) + Extract(tokens[i + 1..], Next(f, tokens[i]))
  {
  }

  /** One turn of `Crawl`'s loop: appending the token's lines keeps the loop invariant. */
  lemma CrawlStep(tokens: seq<Token>, i: nat, f: Flags, sent: seq<string>)
    requires i < |tokens| && !tokens[i].Error?
    ensures (sent + Emit(f, tokens[i])) + Extract(tokens[i + 1..], Next(f, tokens[i])) == sent + Extract(tokens[i..], f)
  {
    ExtractStep(tokens, i, f);
  }

  /** Scanning is compositional: the output of a concatenation is the outputs in order. */
  lemma {:induction false} ExtractAppend(xs: seq<Token>, ys: seq<Token>, f: Flags)
    requires NoError(xs)
    ensures Extract(xs + ys, f) == Extract(xs, f) + Extract(ys, FlagsAfter(xs, f))
    decreases |xs|
  {
    if xs == [] {
      assert xs + ys == ys;
    } else {
      assert (xs + ys)[1..] == xs[1..] + ys;
      ExtractAppend(xs[1..], ys, Next(f, xs[0]));
    }
  }

  /** The flags after a concatenation: scan the first part, then the second. */
  lemma {:induction false} FlagsAfterAppend(xs: seq<Token>, ys: seq<Token>, f: Flags)
    ensures FlagsAfter(xs + ys, f) == FlagsAfter(ys, FlagsAfter(xs, f))
    decreases |xs|
  {
    if xs == [] {
      assert xs + ys == ys;
    } else {
      assert (xs + ys)[1..] == xs[1..] + ys;
      FlagsAfterAppend(xs[1..], ys, Next(f, xs[0]));
    }
  }

  /** Tokens after the first error contribute nothing. */
  lemma StopsAtFirstError(xs: seq<Token>, ys: seq<Token>, f: Flags)
    requires NoError(xs)
    ensures Extract(xs + [Error] + ys, f) == Extract(xs, f)
  {
    ExtractAppend(xs, [Error] + ys, f);
    assert xs + [Error] + ys == xs + ([Error] + ys);
  }

  /** At most one line per start tag and two per text token before the first error. */
  lemma {:induction false} ExtractWithinBudget(tokens: seq<Token>, f: Flags)
    ensures |Extract(tokens, f)| <= Budget(tokens)
    decreases |tokens|
  {
    if tokens != [] && !tokens[0].Error? {
      ExtractWithinBudget(tokens[1..], Next(f, tokens[0]));
    }
  }

  /** Streaming: what is sent for some tokens stays the beginning of the output as more tokens arrive. */
  lemma {:induction false} ExtractGrowsByAppending(xs: seq<Token>, ys: seq<Token>, f: Flags)
    ensures Extract(xs, f) <= Extract(xs + ys, f)
    decreases |xs|
  {
    if xs != [] && !xs[0].Error? {
      assert (xs + ys)[1..] == xs[1..] + ys;
      ExtractGrowsByAppending(xs[1..], ys, Next(f, xs[0]));
    }
  }

  predicate IsTitleLine(s: string) { IsPrefix(TitleLabel, s) }
  predicate IsSummaryLine(s: string) { IsPrefix(SummaryLabel, s) }
  predicate IsLinkLine(s: string) { IsPrefix(LinkLabel, s) }

  /** The three labels start with different letters, so a line has exactly one kind. */
  lemma LabelsDisjoint(payload: string)
    ensures IsTitleLine(TitleLabel + payload)
    ensures !IsSummaryLine(TitleLabel + payload) && !IsLinkLine(TitleLabel + payload)
    ensures IsSummaryLine(SummaryLabel + payload)
    ensures !IsTitleLine(SummaryLabel + payload) && !IsLinkLine(SummaryLabel + payload)
    ensures IsLinkLine(LinkLabel + payload)
    ensures !IsTitleLine(LinkLabel + payload) && !IsSummaryLine(LinkLabel + payload)
  {
  }

  /** No title line is sent while the title flag is off and no marked `h3` comes. */
  lemma {:induction false} NoTitleWithoutMarkedH3(tokens: seq<Token>, f: Flags)
    requires !f.title
    requires forall j :: 0 <= j < |tokens| ==> !OpensTitle(tokens[j])
    ensures forall s :: s in Extract(tokens, f) ==> !IsTitleLine(s)
    decreases |tokens|
  {
    if tokens != [] && !tokens[0].Error? {
      var t := tokens[0];
      match t {
        case StartTag(_, _) =>
          if AnchorLink(t).Some? { LabelsDisjoint(AnchorLink(t).value); }
        case Text(data) =>
          LabelsDisjoint(data);
        case _ =>
      }
      NoTitleWithoutMarkedH3(tokens[1..], Next(f, t));
    }
  }

  /** No summary line is sent while the summary flag is off and no marked `p` comes. */
  lemma {:induction false} NoSummaryWithoutMarkedP(tokens: seq<Token>, f: Flags)
    requires !f.summary
    requires forall j :: 0 <= j < |tokens| ==> !OpensSummary(tokens[j])
    ensures forall s :: s in Extract(tokens, f) ==> !IsSummaryLine(s)
    decreases |tokens|
  {
    if tokens != [] && !tokens[0].Error? {
      var t := tokens[0];
      match t {
        case StartTag(_, _) =>
          if AnchorLink(t).Some? { LabelsDisjoint(AnchorLink(t).value); }
        case Text(data) =>
          LabelsDisjoint(data);
        case _ =>
      }
      NoSummaryWithoutMarkedP(tokens[1..], Next(f, t));
    }
  }

  /** Every line sent is a title, a summary or a link line. */
  lemma {:induction false} LinesAreLabelled(tokens: seq<Token>, f: Flags)
    ensures forall s :: s in Extract(tokens, f) ==> IsTitleLine(s) || IsSummaryLine(s) || IsLinkLine(s)
    decreases |tokens|
  {
    if tokens != [] && !tokens[0].Error? {
      var t := tokens[0];
      match t {
        case StartTag(_, _) =>
          if AnchorLink(t).Some? { LabelsDisjoint(AnchorLink(t).value); }
        case Text(data) =>
          LabelsDisjoint(data);
        case _ =>
      }
      LinesAreLabelled(tokens[1..], Next(f, t));
    }
  }

  /**
   The flags start off, so tokens with no marked `h3` or `p` among them send
   only links. Applied to the tokens before the first marked tag, with
   `ExtractGrowsByAppending`, this says the page's output starts with links only.
   */
  lemma OnlyLinksBeforeFirstMarkedTag(tokens: seq<Token>)
    requires forall j :: 0 <= j < |tokens| ==> !OpensTitle(tokens[j]) && !OpensSummary(tokens[j])
    ensures forall s :: s in Extract(tokens, Idle) ==> IsLinkLine(s)
  {
    NoTitleWithoutMarkedH3(tokens, Idle);
    NoSummaryWithoutMarkedP(tokens, Idle);
    LinesAreLabelled(tokens, Idle);
  }

  /** The link lines among `lines`, in order. */
  function LinkLines(lines: seq<string>): seq<string> {
    if lines == [] then []
    else (if IsLinkLine(lines[0]) then [lines[0]] else []) + LinkLines(lines[1..])
  }

  lemma {:induction false} LinkLinesAppend(a: seq<string>, b: seq<string>)
    ensures LinkLines(a + b) == LinkLines(a) + LinkLines(b)
    decreases |a|
  {
    if a == [] {
      assert a + b == b;
    } else {
      assert (a + b)[1..] == a[1..] + b;
      LinkLinesAppend(a[1..], b);
    }
  }

  /** One link line per marked anchor with an `href`, in document order, up to the first error. */
  function AnchorLinks(tokens: seq<Token>): seq<string> {
    if tokens == [] || tokens[0].Error? then []
    else
      var link := AnchorLink(tokens[0]);
      (if link.Some? then [LinkLabel + link.value] else []) + AnchorLinks(tokens[1..])
  }

  /**
   The links sent do not depend on the flags: they are exactly the marked
   anchors' links in document order, and text never yields one.
   */
  lemma {:induction false} LinksIgnoreFlags(tokens: seq<Token>, f: Flags)
    ensures LinkLines(Extract(tokens, f)) == AnchorLinks(tokens)
    decreases |tokens|
  {
    if tokens != [] && !tokens[0].Error? {
      var t := tokens[0];
      LinkLinesAppend(Emit(f, t), Extract(tokens[1..], Next(f, t)));
      LinksIgnoreFlags(tokens[1..], Next(f, t));
      match t {
        case StartTag(_, _) =>
          var link := AnchorLink(t);
          if link.Some? {
            LabelsDisjoint(link.value);
            assert LinkLines([LinkLabel + link.value]) == [LinkLabel + link.value];
          }
        case Text(data) =>
          LabelsDisjoint(data);
          var lines := Emit(f, t);
          assert forall s :: s in lines ==> s == TitleLabel + data || s == SummaryLabel + data;
          NoLinkLines(lines);
        case _ =>
      }
    }
  }

  lemma {:induction false} NoLinkLines(lines: seq<string>)
    requires forall s :: s in lines ==> !IsLinkLine(s)
    ensures LinkLines(lines) == []
    decreases |lines|
  {
    if lines != [] {
      assert lines[0] in lines;
      assert forall s :: s in lines[1..] ==> s in lines;
      NoLinkLines(lines[1..]);
    }
  }
}
