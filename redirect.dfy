/**
 * The content script's redirect classifier: given the URL a task was opened
 * with and the URL the tab ended on, decide which of five ribbons to show.
 * `new URL(...)` is not modelled; a `Url` carries its text together with
 * what parsing it yields (nothing when the constructor throws).
 */
module Redirect {
  import opened Wrappers
  import opened Strings

  /** Path fragments that mark a final URL as a listing rather than a product. */
  const WAYFAIR_INVALID_PATTERNS: seq<string> := ["/sb0/", "/sb1/", "/redir_sku/", "/bnd/", "/brand/", "/cat/"]

  const PDP := "/pdp/"
  const HTML := ".html"
  const WAYFAIR_HOST := "wayfair."

  /** The parts of a parsed URL the classifier reads. */
  datatype ParsedUrl = ParsedUrl(hostname: string, piid: Option<string>)

  /** A URL string and the outcome of parsing it. */
  datatype Url = Url(text: string, parsed: Option<ParsedUrl>)

  /** `isWayfair`: the hostname contains "wayfair."; false when the URL does not parse. */
  function IsWayfair(url: Url): (r: bool)
    ensures url.parsed.None? ==> !r
    ensures url.parsed.Some? ==> (r <==> exists i: nat :: OccursAt(url.parsed.value.hostname, WAYFAIR_HOST, i))
  {
    url.parsed.Some? && Contains(url.parsed.value.hostname, WAYFAIR_HOST)
  }

  /** `extractPIID`: the `piid` query parameter; null when the URL does not parse. */
  function ExtractPIID(url: Url): (r: Option<string>)
    ensures url.parsed.None? ==> r.None?
    ensures url.parsed.Some? ==> r == url.parsed.value.piid
  {
    match url.parsed
    case None => None
    case Some(p) => p.piid
  }

  /** Where the lazy group of the slug pattern stops: the first ".html" at or
      after `start`, or the end of the string. */
  function SlugEnd(s: string, start: nat): (j: nat)
    requires start <= |s|
    ensures start <= j <= |s|
    ensures FirstFrom(s, HTML, start, j) || (j == |s| && NoneFrom(s, HTML, start))
  {
    match IndexOf(s, HTML, start)
    case Some(j) => j
    case None => |s|
  }

  /** `q` is the first "/" after the "/pdp/" at `p`. */
  ghost predicate SlashAfterPdp(url: string, p: nat, q: nat) {
    FirstFrom(url, "/", p + |PDP|, q)
  }

  /** `extractSlug`: after the first "/pdp/", skip to the next "/" and take
      what follows it up to the first ".html" or the end. Null when there is
      no "/pdp/" or no "/" after it. */
  function ExtractSlug(url: string): (r: Option<string>)
    ensures r.None? <==>
      NoneFrom(url, PDP, 0) || exists p: nat :: FirstFrom(url, PDP, 0, p) && NoneFrom(url, "/", p + |PDP|)
    ensures r.Some? ==>
      exists p: nat, q: nat ::
        && FirstFrom(url, PDP, 0, p)
        && SlashAfterPdp(url, p, q)
        && r.value == url[q + 1..SlugEnd(url, q + 1)]
  {
    match IndexOf(url, PDP, 0)
    case None => None
    case Some(p) =>
      match IndexOf(url, "/", p + |PDP|)
      case None =>
        assert FirstFrom(url, PDP, 0, p) && NoneFrom(url, "/", p + |PDP|);
        None
      case Some(q) =>
        assert FirstFrom(url, PDP, 0, p) && SlashAfterPdp(url, p, q);
        Some(url[q + 1..SlugEnd(url, q + 1)])
  }

  /** `isInvalidWayfairURL`: the final URL does not end in ".html", or one of
      the listing patterns occurs in it. */
  function IsInvalidWayfairURL(finalUrl: string): (r: bool)
    ensures r <==>
      || (forall prefix: string :: finalUrl != prefix + HTML)
      || exists k: nat, i: nat :: k < |WAYFAIR_INVALID_PATTERNS| && OccursAt(finalUrl, WAYFAIR_INVALID_PATTERNS[k], i)
  {
    !EndsWith(finalUrl, HTML) || ContainsAny(finalUrl, WAYFAIR_INVALID_PATTERNS)
  }

  /** JavaScript truthiness of a string that may be null. */
  predicate Present(o: Option<string>) {
    o.Some? && o.value != ""
  }

  /** A string-or-null with the empty string read as null. */
  function Normal(o: Option<string>): Option<string> {
    if Present(o) then o else None
  }

  /** The variation test on the two piids. */
  function PiidMismatch(po: Option<string>, pf: Option<string>): (r: bool)
    ensures r <==> pf == Some("null") || Normal(po) != Normal(pf)
  {
    || pf == Some("null")
    || (Present(po) && !Present(pf))
    || (!Present(po) && Present(pf))
    || (Present(po) && Present(pf) && po.value != pf.value)
  }

  /** The SKU test on the two slugs. */
  function SlugMismatch(so: Option<string>, sf: Option<string>): (r: bool)
    ensures r ==> so.Some? && sf.Some? && so != sf
    ensures r <==> Normal(so).Some? && Normal(sf).Some? && Normal(so) != Normal(sf)
  {
    Present(so) && Present(sf) && so.value != sf.value
  }

  /** The five ribbons. */
  datatype Verdict = NotWayfair | InvalidUrl | VariationNotSelected | SkuRedirected | NoRedirection {

    function Icon(): string {
      match this
      case NotWayfair => "\U{2139}\U{FE0F}"
      case InvalidUrl => "\U{26D4}"
      case VariationNotSelected => "\U{1F9E9}"
      case SkuRedirected => "\U{1F501}"
      case NoRedirection => "\U{2705}"
    }

    function Text(): string {
      match this
      case NotWayfair => "No redirection detected"
      case InvalidUrl => "UNKNOWN : URL IS INVALID"
      case VariationNotSelected => "UNKNOWN : VARIATION NOT SELECTED"
      case SkuRedirected => "SKU REDIRECTED"
      case NoRedirection => "NO REDIRECTION DETECTED"
    }

    function Background(): string {
      match this
      case NotWayfair => "#e7f1ff"
      case InvalidUrl => "#f8d7da"
      case VariationNotSelected => "#e2d9f3"
      case SkuRedirected => "#fff3cd"
      case NoRedirection => "#e7f1ff"
    }

    function Foreground(): string {
      match this
      case NotWayfair => "#084298"
      case InvalidUrl => "#842029"
      case VariationNotSelected => "#4b2e83"
      case SkuRedirected => "#664d03"
      case NoRedirection => "#084298"
    }
  }

  /** `evaluateWayfair(original, final)`. */
  function EvaluateWayfair(original: Url, final: Url): (r: Verdict)
    ensures r == NotWayfair <==> !IsWayfair(final)
    ensures r == InvalidUrl <==> IsWayfair(final) && IsInvalidWayfairURL(final.text)
  {
    if !IsWayfair(final) then NotWayfair
    else if IsInvalidWayfairURL(final.text) then InvalidUrl
    else if PiidMismatch(ExtractPIID(original), ExtractPIID(final)) then VariationNotSelected
    else if SlugMismatch(ExtractSlug(original.text), ExtractSlug(final.text)) then SkuRedirected
    else NoRedirection
  }
}
