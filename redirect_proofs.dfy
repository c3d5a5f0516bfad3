/** What the classifier guarantees, proved from the definitions in redirect.dfy. */
module RedirectProofs {
  import opened Wrappers
  import opened Strings
  import opened Redirect

  /** An occurrence inside a slice is an occurrence in the whole string. */
  lemma OccursInSlice(s: string, a: nat, b: nat, pat: string, k: nat)
    requires a <= b <= |s| && OccursAt(s[a..b], pat, k)
    ensures OccursAt(s, pat, a + k) && a + k + |pat| <= b
  {
    forall m | 0 <= m < |pat|
      ensures s[a + k..a + k + |pat|][m] == pat[m]
    {
      assert s[a..b][k..k + |pat|][m] == pat[m];
    }
    assert s[a + k..a + k + |pat|] == pat;
  }

  /** No ".html" occurs before the place the slug group stops. */
  lemma NoHtmlBeforeSlugEnd(s: string, start: nat)
    requires start <= |s|
    ensures !Contains(s[start..SlugEnd(s, start)], HTML)
  {
    if k: nat :| OccursAt(s[start..SlugEnd(s, start)], HTML, k) {
      OccursInSlice(s, start, SlugEnd(s, start), HTML, k);
    }
  }

  /** The slug never contains ".html": the lazy group stops at the first one. */
  lemma SlugHasNoHtml(url: string)
    requires ExtractSlug(url).Some?
    ensures !Contains(ExtractSlug(url).value, HTML)
  {
    var pdp := IndexOf(url, PDP, 0);
    assert pdp.Some?;
    var p := pdp.value;
    var slash := IndexOf(url, "/", p + |PDP|);
    assert slash.Some?;
    var q := slash.value;
    assert OccursAt(url, "/", q);
    assert ExtractSlug(url) == Some(url[q + 1..SlugEnd(url, q + 1)]);
    NoHtmlBeforeSlugEnd(url, q + 1);
  }

  /** Matching the slug pattern can only start at the first "/pdp/": when the
      first one has no "/" after it, no later one does either, so taking the
      first occurrence is the regular expression's leftmost match. */
  lemma OnlyFirstPdpCanMatch(url: string, p: nat, p': nat)
    requires FirstFrom(url, PDP, 0, p) && OccursAt(url, PDP, p')
    requires NoneFrom(url, "/", p + |PDP|)
    ensures p' == p && NoneFrom(url, "/", p' + |PDP|)
  {
    if p' != p {
      assert p < p';
      assert url[p'..p' + |PDP|][4] == '/';
      assert OccursAt(url, "/", p' + 4);
    }
  }

  /** A later "/pdp/" still yields the slug of the first one. */
  lemma SlugFromFirstPdp(url: string, p: nat, q: nat)
    requires FirstFrom(url, PDP, 0, p) && SlashAfterPdp(url, p, q)
    ensures ExtractSlug(url) == Some(url[q + 1..SlugEnd(url, q + 1)])
  {
    var p0 := IndexOf(url, PDP, 0);
    assert p0 == Some(p);
    var q0 := IndexOf(url, "/", p + |PDP|);
    assert q0 == Some(q);
  }

  /** `isInvalidWayfairURL` on the listing patterns, one by one. */
  lemma ListingPatternsInvalid(finalUrl: string, k: nat)
    requires k < |WAYFAIR_INVALID_PATTERNS| && Contains(finalUrl, WAYFAIR_INVALID_PATTERNS[k])
    ensures IsInvalidWayfairURL(finalUrl)
  {
  }

  /** A final URL that is not on a Wayfair host means "No redirection
      detected", whatever the original URL is. */
  lemma NotWayfairIgnoresOriginal(original: Url, other: Url, final: Url)
    requires !IsWayfair(final)
    ensures EvaluateWayfair(original, final) == NotWayfair == EvaluateWayfair(other, final)
  {
  }

  /** On a Wayfair host an invalid final URL wins over the piid and slug tests. */
  lemma InvalidTakesPrecedence(original: Url, final: Url)
    requires IsWayfair(final)
    requires !EndsWith(final.text, HTML) || ContainsAny(final.text, WAYFAIR_INVALID_PATTERNS)
    ensures EvaluateWayfair(original, final) == InvalidUrl
  {
  }

  /** The three verdicts past the validity test are only given to a Wayfair
      final URL that ends in ".html" and contains no listing pattern. */
  lemma AcceptedFinalUrl(original: Url, final: Url)
    requires EvaluateWayfair(original, final) in {VariationNotSelected, SkuRedirected, NoRedirection}
    ensures final.parsed.Some? && Contains(final.parsed.value.hostname, WAYFAIR_HOST)
    ensures exists prefix: string :: final.text == prefix + HTML
    ensures forall k: nat, i: nat :: k < |WAYFAIR_INVALID_PATTERNS| ==> !OccursAt(final.text, WAYFAIR_INVALID_PATTERNS[k], i)
  {
  }

  /** "UNKNOWN : VARIATION NOT SELECTED" exactly when the final URL passed the
      earlier tests and its piid is the text "null" or the two piids differ,
      an empty piid counting as none. */
  lemma VariationIff(original: Url, final: Url)
    ensures EvaluateWayfair(original, final) == VariationNotSelected <==>
      && IsWayfair(final) && !IsInvalidWayfairURL(final.text)
      && (final.parsed.value.piid == Some("null")
          || Normal(ExtractPIID(original)) != Normal(final.parsed.value.piid))
  {
  }

  /** "SKU REDIRECTED" exactly when no earlier rule fired and both slugs are
      there, non-empty, free of ".html" and different. */
  lemma SkuRedirectedIff(original: Url, final: Url)
    ensures EvaluateWayfair(original, final) == SkuRedirected <==>
      && IsWayfair(final) && !IsInvalidWayfairURL(final.text)
      && !PiidMismatch(ExtractPIID(original), ExtractPIID(final))
      && Present(ExtractSlug(original.text)) && Present(ExtractSlug(final.text))
      && ExtractSlug(original.text) != ExtractSlug(final.text)
    ensures EvaluateWayfair(original, final) == SkuRedirected ==>
      && !Contains(ExtractSlug(original.text).value, HTML)
      && !Contains(ExtractSlug(final.text).value, HTML)
  {
    if EvaluateWayfair(original, final) == SkuRedirected {
      SlugHasNoHtml(original.text);
      SlugHasNoHtml(final.text);
    }
  }

  /** A tab that was not redirected is never reported as a SKU redirect, and
      reports an unselected variation only for the literal piid "null". */
  lemma SameUrlNotRedirected(url: Url)
    ensures EvaluateWayfair(url, url) != SkuRedirected
    ensures EvaluateWayfair(url, url) == VariationNotSelected <==>
      IsWayfair(url) && !IsInvalidWayfairURL(url.text) && url.parsed.value.piid == Some("null")
  {
  }

  /** The five ribbons carry five different texts (the first and the last
      differ only in letter case). */
  lemma TextsDistinct(v: Verdict, w: Verdict)
    requires v != w
    ensures v.Text() != w.Text()
  {
  }
}
