/**
 The attribute classifiers of the crawler: does a start tag's attribute list
 mark an episode title, an episode summary, or an episode link (and where
 does that link point)?
 */
module Classify {
  import opened Strings
  import opened Wrappers
  import opened Html

  const TitleMarker: string := "episodeGuide-episodeTitle"
  const SummaryMarker: string := "episodeGuide-episodeSummary"
  const LinkMarker: string := "episodeGuide-episodeLink"
  const HrefKey: string := "href"

  /** Some attribute VALUE (never a key) contains `marker`. */
  predicate Marked(attrs: seq<Attribute>, marker: string) {
    exists i :: 0 <= i < |attrs| && Contains(attrs[i].val, marker)
  }

  /** Some attribute has the key `href`. */
  predicate HasHref(attrs: seq<Attribute>) {
    exists i :: 0 <= i < |attrs| && attrs[i].key == HrefKey
  }

  /** The value of the last `href` attribute, if there is one. */
  function LastHref(attrs: seq<Attribute>): (r: Option<string>)
    ensures r.Some? <==> HasHref(attrs)
    ensures r.Some? ==>
      exists i :: 0 <= i < |attrs| && attrs[i].key == HrefKey && attrs[i].val == r.value &&
        forall j :: i < j < |attrs| ==> attrs[j].key != HrefKey
  {
    if attrs == [] then None
    else
      var last := attrs[|attrs| - 1];
      var init := attrs[..|attrs| - 1];
      assert forall j :: 0 <= j < |init| ==> init[j] == attrs[j];
      if last.key == HrefKey then Some(last.val) else LastHref(init)
  }

  /** Looking at one more attribute: a later `href` replaces the one found so far. */
  lemma LastHrefExtend(attrs: seq<Attribute>, i: nat)
    requires i < |attrs|
    ensures LastHref(attrs[..i + 1]) ==
      if attrs[i].key == HrefKey then Some(attrs[i].val) else LastHref(attrs[..i])
  {
  }

  /** Looking at one more attribute value for the marker. */
  lemma MarkedExtend(attrs: seq<Attribute>, i: nat, marker: string)
    requires i < |attrs|
    ensures Marked(attrs[..i + 1], marker) == (Marked(attrs[..i], marker) || Contains(attrs[i].val, marker))
  {
  }

  /**
   Where an episode link points: nowhere unless some attribute value carries
   the link marker (even when an `href` is present), otherwise the last `href`.
   */
  function LinkTarget(attrs: seq<Attribute>): (r: Option<string>)
    ensures !Marked(attrs, LinkMarker) ==> r == None
    ensures Marked(attrs, LinkMarker) ==> r == LastHref(attrs)
    ensures r.Some? <==> Marked(attrs, LinkMarker) && HasHref(attrs)
  {
    if Marked(attrs, LinkMarker) then LastHref(attrs) else None
  }

  /** Whether a tag's attributes mark an episode title (`isTitle`). */
  method IsTitle(attrs: seq<Attribute>) returns (ok: bool)
    ensures ok <==> Marked(attrs, TitleMarker)
  {
    ok := false;
    for i := 0 to |attrs|
      invariant ok == Marked(attrs[..i], TitleMarker)
    {
      MarkedExtend(attrs, i, TitleMarker);
      if Contains(attrs[i].val, TitleMarker) {
        ok := true;
      }
    }
  }

  /** Whether a tag's attributes mark an episode summary (`isSummary`). */
  method IsSummary(attrs: seq<Attribute>) returns (ok: bool)
    ensures ok <==> Marked(attrs, SummaryMarker)
  {
    ok := false;
    for i := 0 to |attrs|
      invariant ok == Marked(attrs[..i], SummaryMarker)
    {
      MarkedExtend(attrs, i, SummaryMarker);
      if Contains(attrs[i].val, SummaryMarker) {
        ok := true;
      }
    }
  }

  /**
   The episode link of a tag (`getHref`): `ok` with the last `href` value when
   the link marker is present and an `href` exists, `(false, "")` otherwise.
   */
  method GetHref(attrs: seq<Attribute>) returns (ok: bool, href: string)
    ensures ok <==> LinkTarget(attrs).Some?
    ensures href == if ok then LinkTarget(attrs).value else ""
  {
    ok, href := false, "";
    var found := false;
    for i := 0 to |attrs|
      invariant found == Marked(attrs[..i], LinkMarker)
      invariant LastHref(attrs[..i]) == if ok then Some(href) else None
      invariant !ok ==> href == ""
    {
      var a := attrs[i];
      LastHrefExtend(attrs, i);
      MarkedExtend(attrs, i, LinkMarker);
      if Contains(a.val, LinkMarker) {
        found := true;
      }
      if a.key == HrefKey {
        href := a.val;
        ok := true;
      }
    }
    assert attrs[..|attrs|] == attrs;
    if !found {
      href := "";
      ok := false;
    }
  }
}
