/** The thumbnail side of the add-bookmark dialog: the 600-pixel downscaling
    rule of `resizeImage`, the favicon-service query of `tryFetchSiteIcon`, and
    the choice the fetch-image button makes between the two image sources. */
module Images {
  import opened Wrappers
  import opened JsString

  /** `MAX_SIZE` in `resizeImage`. */
  const MaxSize := 600

  function Max(a: int, b: int): int {
    if a < b then b else a
  }

  /** Multiplying by a positive number keeps a strict order. */
  lemma MulCancel(q: nat, a: nat, big: nat)
    requires 0 < big && q * big < (a + 1) * big
    ensures q <= a
  {
    if q > a {
      MulMono(a + 1, q, big);
    }
  }

  lemma MulMono(x: nat, y: nat, b: nat)
    requires x <= y
    ensures x * b <= y * b
  {
  }

  /** The exact quotient `q` of `a * MaxSize` by `big` is the floor of the
      proportional value and, for a side no longer than `big` with `big` over
      the cap, at most the side and at most the cap. */
  lemma ScaledBounds(a: nat, big: nat, q: nat)
    requires 0 < big && q == a * MaxSize / big
    ensures q * big <= a * MaxSize < (q + 1) * big
    ensures a <= big && MaxSize < big ==> q <= a && q <= MaxSize
  {
    var x := a * MaxSize;
    assert x == q * big + x % big;
    assert (q + 1) * big == q * big + big;
    if a <= big && MaxSize < big {
      MulMono(MaxSize, big, a);
      assert (a + 1) * big == a * big + big;
      MulCancel(q, a, big);
      MulMono(a, big, MaxSize);
      assert (MaxSize + 1) * big == MaxSize * big + big;
      MulCancel(q, MaxSize, big);
    }
  }

  /** `a * (MaxSize / big)` truncated to an integer, computed exactly. */
  function Scaled(a: nat, big: nat): (q: nat)
    requires 0 < big
    ensures q * big <= a * MaxSize < (q + 1) * big
    ensures a <= big && MaxSize < big ==> q <= a && q <= MaxSize
  {
    var q := a * MaxSize / big;
    ScaledBounds(a, big, q);
    q
  }

  /** The dimensions `resizeImage` gives the canvas for an image of `w` by `h`
      pixels: within the cap nothing changes; otherwise the larger side (the
      height on a tie) becomes `MaxSize` and the other is scaled by the same
      ratio and truncated, as assigning it to `canvas.width` or `canvas.height`
      does. */
  method ResizeDims(w: nat, h: nat) returns (width: nat, height: nat)
    ensures Max(w, h) <= MaxSize ==> width == w && height == h
    ensures w > h && w > MaxSize ==> width == MaxSize && height * w <= h * MaxSize < (height + 1) * w
    ensures w <= h && h > MaxSize ==> height == MaxSize && width * h <= w * MaxSize < (width + 1) * h
    ensures Max(w, h) > MaxSize ==> Max(width, height) == MaxSize
    ensures width <= w && height <= h
    ensures width <= MaxSize && height <= MaxSize
  {
    width, height := w, h;
    if width > height {
      if width > MaxSize {
        height := Scaled(height, width);
        width := MaxSize;
      }
    } else {
      if height > MaxSize {
        width := Scaled(width, height);
        height := MaxSize;
      }
    }
  }

  /** The favicon-service query URL, fixed but for the host name. */
  const FaviconPrefix := "https://www.google.com/s2/favicons?domain="
  const FaviconSuffix := "&sz=128"

  /** The template string of `tryFetchSiteIcon`: the host name goes in
      between the fixed prefix and the fixed size parameter, unescaped. */
  function FaviconUrl(host: string): (u: string)
    ensures |u| == |FaviconPrefix| + |host| + |FaviconSuffix|
    ensures u[..|FaviconPrefix|] == FaviconPrefix
    ensures u[|u| - |FaviconSuffix|..] == FaviconSuffix
  {
    FaviconPrefix + host + FaviconSuffix
  }

  /** Reads the host name back out of a favicon query URL. */
  function FaviconHost(u: string): (host: Option<string>)
    ensures host.Some? ==> |host.value| + |FaviconPrefix| + |FaviconSuffix| == |u|
  {
    if |FaviconPrefix| + |FaviconSuffix| <= |u|
       && u[..|FaviconPrefix|] == FaviconPrefix
       && u[|u| - |FaviconSuffix|..] == FaviconSuffix
    then Some(u[|FaviconPrefix|..|u| - |FaviconSuffix|])
    else None
  }

  /** The query URL carries exactly the host name it was built from. */
  lemma FaviconRoundTrip(host: string)
    ensures FaviconHost(FaviconUrl(host)) == Some(host)
  {
    var u := FaviconUrl(host);
    assert u[|FaviconPrefix|..|u| - |FaviconSuffix|] == host;
  }

  /** Distinct host names give distinct query URLs. */
  lemma FaviconUrlInjective(a: string, b: string)
    requires FaviconUrl(a) == FaviconUrl(b)
    ensures a == b
  {
    FaviconRoundTrip(a);
    FaviconRoundTrip(b);
  }

  /** The URL `tryFetchSiteIcon(siteUrl)` hands to `fetchAndResizeImage`, where
      `hostnameOf` is the outcome of `new URL(siteUrl).hostname` (None when it
      throws). None means the function returns null without any fetch: the
      site URL is empty, or it does not parse. */
  function SiteIconQuery(siteUrl: string, hostnameOf: Option<string>): (q: Option<string>)
    ensures q.Some? <==> siteUrl != "" && hostnameOf.Some?
    ensures q.Some? ==> FaviconHost(q.value) == hostnameOf
  {
    if siteUrl == "" then None
    else
      match hostnameOf
      case None => None
      case Some(host) =>
        FaviconRoundTrip(host);
        Some(FaviconUrl(host))
  }

  /** What the fetch-image button fetches. */
  datatype ImageRequest =
    | NoRequest                   // both inputs blank: the handler returns at once
    | Direct(imageUrl: string)    // `fetchAndResizeImage` of the image URL
    | SiteIcon(siteUrl: string)   // `tryFetchSiteIcon` of the site URL

  /** The fetch-image button's choice: the trimmed image URL when it is not
      blank, else the site's favicon when the trimmed site URL is not blank,
      else nothing. */
  function ImageSource(imageUrlInput: string, siteUrlInput: string): (r: ImageRequest)
    ensures r.NoRequest? <==> Trim(imageUrlInput) == "" && Trim(siteUrlInput) == ""
    ensures r.Direct? <==> Trim(imageUrlInput) != ""
    ensures r.Direct? ==> r.imageUrl == Trim(imageUrlInput)
    ensures r.SiteIcon? ==> r.siteUrl == Trim(siteUrlInput) && r.siteUrl != ""
  {
    var imageUrl := Trim(imageUrlInput);
    var urlToFetch := if imageUrl != "" then imageUrl else Trim(siteUrlInput);
    if urlToFetch == "" then NoRequest
    else if imageUrl != "" then Direct(imageUrl)
    else SiteIcon(Trim(siteUrlInput))
  }
}
