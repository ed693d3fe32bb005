/**
 * Site classification (`SiteDetector` in content.js): which storefront a
 * page belongs to, from its hostname, and whether its URL is a product page.
 * Both are pure functions of the hostname and the URL rather than of the
 * browser's `window.location`.
 */
module Sites {
  import opened Wrappers
  import opened Text

  datatype Site = AmazonUs | AmazonZa | Takealot

  /** The tag a record stores and the store key starts with. */
  function SiteName(s: Site): string {
    match s
    case AmazonUs => "amazon_us"
    case AmazonZa => "amazon_za"
    case Takealot => "takealot"
  }

  /** The hostname fragment each detection rule looks for. */
  function HostMarker(s: Site): string {
    match s
    case AmazonUs => "amazon.com"
    case AmazonZa => "amazon.co.za"
    case Takealot => "takealot.com"
  }

  /** The position of each site's rule in the order the rules are tried. */
  function Rank(s: Site): nat {
    match s
    case AmazonUs => 0
    case AmazonZa => 1
    case Takealot => 2
  }

  /**
   * `SiteDetector.detect`: the site of the first rule whose marker the
   * hostname contains, or none when no rule matches.
   */
  function Detect(hostname: string): (r: Option<Site>)
    ensures r.Some? ==> Contains(hostname, HostMarker(r.value))
    ensures r.Some? ==> forall s :: Rank(s) < Rank(r.value) ==> !Contains(hostname, HostMarker(s))
    ensures r.None? <==> forall s :: !Contains(hostname, HostMarker(s))
  {
    if Contains(hostname, "amazon.com") then Some(AmazonUs)
    else if Contains(hostname, "amazon.co.za") then Some(AmazonZa)
    else if Contains(hostname, "takealot.com") then Some(Takealot)
    else None
  }

  /**
   * The Takealot product-page pattern `/[^/]+-PLID\d+` matched with its slash
   * at `i` and its `-PLID` at `j`: a slash, at least one non-slash
   * character, `-PLID`, and at least one digit.
   */
  ghost predicate PlidSegmentAt(url: string, i: int, j: int) {
    && 0 <= i && i + 1 < j && j + 5 < |url|
    && url[i] == '/'
    && (forall k | i < k < j :: url[k] != '/')
    && OccursAt(url, "-PLID", j)
    && IsDigit(url[j + 5])
  }

  /** The regular expression `/[^/]+-PLID\d+` matches somewhere in `url`. */
  ghost predicate MatchesPlidPattern(url: string) {
    exists i, j :: PlidSegmentAt(url, i, j)
  }

  /**
   * A `-PLID<digit>` marker at `j` that is preceded by a non-slash character
   * and, somewhere before that, by a slash.
   */
  predicate PlidMarkerAt(url: string, j: int) {
    && 1 <= j && j + 5 < |url|
    && OccursAt(url, "-PLID", j)
    && IsDigit(url[j + 5])
    && url[j - 1] != '/'
    && '/' in url[..j - 1]
  }

  predicate HasPlidSegment(url: string) {
    exists j | 0 <= j < |url| :: PlidMarkerAt(url, j)
  }

  /** The last slash in `url[..n]`. */
  ghost function LastSlashBefore(url: string, n: nat): (i: nat)
    requires n <= |url| && '/' in url[..n]
    ensures i < n && url[i] == '/'
    ensures forall k | i < k < n :: url[k] != '/'
  {
    if url[n - 1] == '/' then n - 1
    else
      assert url[..n] == url[..n - 1] + [url[n - 1]];
      LastSlashBefore(url, n - 1)
  }

  /** The marker scan decides exactly the Takealot regular expression. */
  lemma PlidScanMatchesPattern(url: string)
    ensures HasPlidSegment(url) <==> MatchesPlidPattern(url)
  {
    if HasPlidSegment(url) {
      var j :| 0 <= j < |url| && PlidMarkerAt(url, j);
      var i := LastSlashBefore(url, j - 1);
      assert PlidSegmentAt(url, i, j);
    }
    if MatchesPlidPattern(url) {
      var i, j :| PlidSegmentAt(url, i, j);
      assert url[..j - 1][i] == '/';
      assert PlidMarkerAt(url, j);
    }
  }

  /**
   * `SiteDetector.isProductPage`: false off the supported sites; on an
   * Amazon site, whether the URL contains `/dp/` or `/gp/product/`; on
   * Takealot, whether `/[^/]+-PLID\d+` matches the URL.
   */
  function IsProductPage(hostname: string, url: string): (r: bool)
    ensures Detect(hostname).None? ==> !r
    ensures Detect(hostname) == Some(AmazonUs) || Detect(hostname) == Some(AmazonZa) ==>
              (r <==> Contains(url, "/dp/") || Contains(url, "/gp/product/"))
    ensures Detect(hostname) == Some(Takealot) ==> (r <==> MatchesPlidPattern(url))
  {
    PlidScanMatchesPattern(url);
    match Detect(hostname)
    case Some(AmazonUs) => Contains(url, "/dp/") || Contains(url, "/gp/product/")
    case Some(AmazonZa) => Contains(url, "/dp/") || Contains(url, "/gp/product/")
    case Some(Takealot) => HasPlidSegment(url)
    case None => false
  }
}
