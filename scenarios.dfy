/**
 Pages and tags whose output is proved in the model: the two-episode page,
 the page on which both flags are on at once, and the classifier's edge cases.
 */
module Scenarios {
  import opened Strings
  import opened Wrappers
  import opened Html
  import opened Classify
  import opened Crawler

  const TitleTag: Token := StartTag("h3", [Attribute("class", TitleMarker)])
  const SummaryTag: Token := StartTag("p", [Attribute("class", SummaryMarker)])
  function LinkTag(href: string): Token {
    StartTag("a", [Attribute("class", LinkMarker), Attribute(HrefKey, href)])
  }

  function TitlePart(title: string): (r: seq<Token>)
    ensures NoError(r)
  {
    [TitleTag, Text(title), EndTag("h3")]
  }

  function SummaryPart(summary: string): (r: seq<Token>)
    ensures NoError(r)
  {
    [SummaryTag, Text(summary), EndTag("p")]
  }

  function LinkPart(href: string): (r: seq<Token>)
    ensures NoError(r)
  {
    [LinkTag(href), Text("link"), EndTag("a")]
  }

  /** One episode block: `<h3 ..>title</h3><p ..>summary</p><a .. href=..>link</a>`. */
  function Block(title: string, summary: string, href: string): (r: seq<Token>)
    ensures NoError(r)
  {
    TitlePart(title) + (SummaryPart(summary) + LinkPart(href))
  }

  /** A `class` attribute holding the marker marks the tag; the marked anchor links to its `href`. */
  lemma MarkersFound(href: string)
    ensures OpensTitle(TitleTag) && !OpensSummary(TitleTag)
    ensures OpensSummary(SummaryTag) && !OpensTitle(SummaryTag)
    ensures !OpensTitle(LinkTag(href)) && !OpensSummary(LinkTag(href))
    ensures AnchorLink(LinkTag(href)) == Some(href)
  {
    assert OccursAt(TitleMarker, TitleMarker, 0) && Contains(TitleTag.attrs[0].val, TitleMarker);
    assert OccursAt(SummaryMarker, SummaryMarker, 0) && Contains(SummaryTag.attrs[0].val, SummaryMarker);
    var attrs := LinkTag(href).attrs;
    assert OccursAt(attrs[0].val, LinkMarker, 0);
    assert LastHref(attrs) == Some(href);
  }

  /** One tag, the text inside it and its end tag; the text sends what the tag's flags select. */
  lemma {:induction false} TagTextEnd(tag: Token, data: string, end: string, f: Flags)
    requires tag.StartTag?
    ensures Extract([tag, Text(data), EndTag(end)], f) == Emit(f, tag) + Emit(Next(f, tag), Text(data))
    ensures FlagsAfter([tag, Text(data), EndTag(end)], f) == Next(f, tag)
  {
    var part := [tag, Text(data), EndTag(end)];
    assert part[1..] == [Text(data), EndTag(end)] && part[1..][1..] == [EndTag(end)];
    assert Extract([EndTag(end)], Next(f, tag)) == [];
    assert [EndTag(end)][1..] == [];
    assert FlagsAfter([EndTag(end)], Next(f, tag)) == Next(f, tag);
  }

  /** What each part of a block sends, and the flags it leaves, starting with both flags off. */
  lemma BlockParts(title: string, summary: string, href: string)
    ensures Extract(TitlePart(title), Idle) == [TitleLabel + title]
    ensures FlagsAfter(TitlePart(title), Idle) == Flags(true, false)
    ensures Extract(SummaryPart(summary), Flags(true, false)) == [SummaryLabel + summary]
    ensures FlagsAfter(SummaryPart(summary), Flags(true, false)) == Flags(false, true)
    ensures Extract(LinkPart(href), Flags(false, true)) == [LinkLabel + href]
    ensures FlagsAfter(LinkPart(href), Flags(false, true)) == Idle
  {
    MarkersFound(href);
    var inTitle, inSummary := Flags(true, false), Flags(false, true);
    assert Next(Idle, TitleTag) == inTitle && Emit(Idle, TitleTag) == [];
    assert Next(inTitle, SummaryTag) == inSummary && Emit(inTitle, SummaryTag) == [];
    assert Next(inSummary, LinkTag(href)) == Idle && Emit(inSummary, LinkTag(href)) == [LinkLabel + href];
    assert Emit(Idle, Text("link")) == [];
    TagTextEnd(TitleTag, title, "h3", Idle);
    TagTextEnd(SummaryTag, summary, "p", inTitle);
    TagTextEnd(LinkTag(href), "link", "a", inSummary);
  }

  /** Three error-free-before-the-last parts scanned one after the other: outputs and flags chain. */
  lemma ThreeParts(t: seq<Token>, s: seq<Token>, l: seq<Token>, f: Flags, g: Flags, h: Flags)
    requires NoError(t) && NoError(s)
    requires FlagsAfter(t, f) == g && FlagsAfter(s, g) == h
    ensures Extract(t + (s + l), f) == Extract(t, f) + (Extract(s, g) + Extract(l, h))
    ensures FlagsAfter(t + (s + l), f) == FlagsAfter(l, h)
  {
    ExtractAppend(s, l, g);
    ExtractAppend(t, s + l, f);
    FlagsAfterAppend(s, l, g);
    FlagsAfterAppend(t, s + l, f);
  }

  /** The lines one block sends when it starts with both flags off. */
  lemma BlockLines(title: string, summary: string, href: string)
    ensures Extract(Block(title, summary, href), Idle) ==
      [TitleLabel + title, SummaryLabel + summary, LinkLabel + href]
    ensures FlagsAfter(Block(title, summary, href), Idle) == Idle
  {
    var t, s, l := TitlePart(title), SummaryPart(summary), LinkPart(href);
    assert Extract(t + (s + l), Idle) == [TitleLabel + title, SummaryLabel + summary, LinkLabel + href] by {
      BlockParts(title, summary, href);
      ThreeParts(t, s, l, Idle, Flags(true, false), Flags(false, true));
      assert [TitleLabel + title] + ([SummaryLabel + summary] + [LinkLabel + href]) ==
        [TitleLabel + title, SummaryLabel + summary, LinkLabel + href];
    }
    assert FlagsAfter(t + (s + l), Idle) == Idle by {
      BlockParts(title, summary, href);
      ThreeParts(t, s, l, Idle, Flags(true, false), Flags(false, true));
    }
  }

  /** A page of two episode blocks sends title, summary and link of each, in page order. */
  lemma TwoEpisodePage(a: string, b: string, x: string, c: string, d: string, y: string)
    ensures Extract(Block(a, b, x) + Block(c, d, y), Idle) ==
      [TitleLabel + a, SummaryLabel + b, LinkLabel + x,
       TitleLabel + c, SummaryLabel + d, LinkLabel + y]
  {
    var first, second := Block(a, b, x), Block(c, d, y);
    assert Extract(first + second, Idle) == Extract(first, Idle) + Extract(second, Idle) by {
      BlockLines(a, b, x);
      ExtractAppend(first, second, Idle);
    }
    BlockLines(a, b, x);
    BlockLines(c, d, y);
    assert [TitleLabel + a, SummaryLabel + b, LinkLabel + x] + [TitleLabel + c, SummaryLabel + d, LinkLabel + y] ==
      [TitleLabel + a, SummaryLabel + b, LinkLabel + x, TitleLabel + c, SummaryLabel + d, LinkLabel + y];
  }

  /** A marked `p` then a marked `h3`: both flags are on, and one text token sends two lines. */
  lemma BothFlagsAtOnce(data: string)
    ensures FlagsAfter([SummaryTag, TitleTag], Idle) == Flags(true, true)
    ensures Extract([SummaryTag, TitleTag, Text(data)], Idle) ==
      [TitleLabel + data, SummaryLabel + data]
  {
    MarkersFound("");
    var both := Flags(true, true);
    assert Next(Idle, SummaryTag) == Flags(false, true) && Emit(Idle, SummaryTag) == [];
    assert Next(Flags(false, true), TitleTag) == both && Emit(Flags(false, true), TitleTag) == [];
    var page := [SummaryTag, TitleTag, Text(data)];
    assert page[1..] == [TitleTag, Text(data)] && page[2..] == [Text(data)] && page[3..] == [];
    assert Emit(both, Text(data)) == [TitleLabel + data, SummaryLabel + data];
    assert Extract(page[2..], both) == [TitleLabel + data, SummaryLabel + data];
    assert [SummaryTag, TitleTag][1..] == [TitleTag] && [TitleTag][1..] == [];
  }

  /** A self-closing `<a .../>` is not a start tag, so it sends no link. */
  lemma SelfClosingAnchorSendsNothing(href: string, f: Flags)
    ensures Extract([SelfClosingTag("a", LinkTag(href).attrs)], f) == []
  {
  }

  /** An `href` without the link marker, and the link marker without an `href`, give no link. */
  lemma LinkNeedsMarkerAndHref(href: string)
    requires !Contains(href, LinkMarker)
    ensures LinkTarget([Attribute(HrefKey, href)]) == None
    ensures LinkTarget([Attribute("class", LinkMarker)]) == None
  {
  }

  /** The marker may sit in the `href` value itself: that value is then the link. */
  lemma MarkerInHrefCounts()
    ensures LinkTarget([Attribute(HrefKey, LinkMarker)]) == Some(LinkMarker)
  {
    var attrs := [Attribute(HrefKey, LinkMarker)];
    assert OccursAt(attrs[0].val, LinkMarker, 0);
    assert Marked(attrs, LinkMarker);
  }

  /** The marker in an attribute key does not count. */
  lemma MarkerInKeyIgnored()
    ensures !Marked([Attribute(TitleMarker, "x")], TitleMarker)
  {
  }
}
