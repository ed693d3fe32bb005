/**
 * The per-site extractors of content.js (`AmazonExtractor`,
 * `TakealotExtractor`). The page's DOM is not modelled: what each
 * selector finds is given, selector by selector, in the order the
 * extractor tries them. Each `Get…` method is the source's loop with its
 * early return, proved equal to a function that states which candidate wins.
 */
module Extractors {
  import opened Wrappers
  import opened Text
  import opened PriceText
  import opened Sites
  import opened Search

  /** An element an Amazon price selector matched: its `textContent` and its `content` attribute. */
  datatype PriceElement = PriceElement(textContent: string, contentAttr: Option<string>)

  /** An element of `document.querySelectorAll('*')`, as the Takealot text scan reads it. */
  datatype ScanNode = ScanNode(childCount: nat, textContent: string)

  /** An Amazon image element: `src` and its two fallback attributes. */
  datatype ImageElement = ImageElement(src: string, oldHires: Option<string>, dynamicImage: Option<string>)

  /**
   * What the page offers the extractors. Per Amazon price selector, every
   * matching element (`querySelectorAll`); per other selector, the first
   * match (`querySelector`) or none; all lists in the extractor's order.
   */
  datatype Dom = Dom(
    amazonPrices: seq<seq<PriceElement>>,
    asinInput: Option<string>,
    amazonTitles: seq<Option<string>>,
    amazonImages: seq<Option<ImageElement>>,
    takealotPrices: seq<Option<string>>,
    elements: seq<ScanNode>,
    takealotTitles: seq<Option<string>>,
    documentTitle: string,
    takealotImages: seq<Option<string>>)

  // ----- Prices -----

  /** `element.textContent || element.getAttribute('content') || ''`. */
  function ElementText(e: PriceElement): string {
    if e.textContent != "" then e.textContent else e.contentAttr.GetOr("")
  }

  /** A candidate text's price when its cleaned value parses above 0. */
  function PositivePrice(text: string): (r: Option<real>)
    ensures r.Some? ==> r.value > 0.0
  {
    PriceAbove(text, 0.0)
  }

  /** An Amazon price element's text, cleaned and parsed, when above 0. */
  function ElementPrice(e: PriceElement): (r: Option<real>)
    ensures r.Some? ==> r.value > 0.0
  {
    PositivePrice(ElementText(e))
  }

  /**
   * The Amazon price: over every element of every selector, in the order the
   * nested loops visit them, the first whose text cleans to a number above 0.
   */
  function AmazonPrice(groups: seq<seq<PriceElement>>): (r: Option<real>)
    ensures r.Some? ==> r.value > 0.0
  {
    FirstMapLeftmost(ElementPrice, Flatten(groups));
    FirstSome(MapSeq(ElementPrice, Flatten(groups)))
  }

  /**
   * A structured Takealot selector's first match: its `textContent`'s price
   * when above 0; a selector without a match offers nothing.
   */
  function StructuredPrice(element: Option<string>): (r: Option<real>)
    ensures r.Some? ==> r.value > 0.0
  {
    match element
    case Some(text) => PriceAbove(text, 0.0)
    case None => None
  }

  /**
   * One element as the Takealot text scan tests it: a leaf whose trimmed
   * text starts with "R " and is shorter than 15 characters, accepted when
   * its cleaned value exceeds 10.
   */
  function ScanPrice(n: ScanNode): (r: Option<real>)
    ensures r.Some? ==> r.value > 10.0
  {
    if n.childCount == 0 then
      var text := Trim(n.textContent);
      if StartsWith(text, "R ") && |text| < 15 then PriceAbove(text, 10.0) else None
    else None
  }

  /**
   * `TakealotExtractor.getPrice`: the structured selectors first; the text
   * scan only when none of them yields a price above 0.
   */
  function TakealotPrice(found: seq<Option<string>>, nodes: seq<ScanNode>): (r: Option<real>)
    ensures r.Some? ==> r.value > 0.0
  {
    FirstMapLeftmost(StructuredPrice, found);
    FirstMapLeftmost(ScanPrice, nodes);
    var structured := FirstSome(MapSeq(StructuredPrice, found));
    if structured.Some? then structured else FirstSome(MapSeq(ScanPrice, nodes))
  }

  /**
   * The text scan is a last resort: whenever a structured selector yields a
   * price, the first such selector decides; a price from the scan exists
   * only when every selector failed, and it comes from the first leaf whose
   * trimmed text starts with "R ", is shorter than 15 characters and parses
   * above 10.
   */
  lemma TakealotScanIsLastResort(found: seq<Option<string>>, nodes: seq<ScanNode>)
    ensures (exists i | 0 <= i < |found| :: StructuredPrice(found[i]).Some?) ==>
              exists i | 0 <= i < |found| ::
                && found[i].Some?
                && TakealotPrice(found, nodes) == PriceAbove(found[i].value, 0.0)
                && forall j | 0 <= j < i :: StructuredPrice(found[j]).None?
    ensures (forall i | 0 <= i < |found| :: StructuredPrice(found[i]).None?) && TakealotPrice(found, nodes).Some? ==>
              exists k | 0 <= k < |nodes| ::
                && nodes[k].childCount == 0
                && StartsWith(Trim(nodes[k].textContent), "R ")
                && |Trim(nodes[k].textContent)| < 15
                && TakealotPrice(found, nodes) == PriceAbove(Trim(nodes[k].textContent), 10.0)
                && forall j | 0 <= j < k :: ScanPrice(nodes[j]).None?
    ensures (forall i | 0 <= i < |found| :: StructuredPrice(found[i]).None?) &&
            (forall k | 0 <= k < |nodes| :: ScanPrice(nodes[k]).None?) ==>
              TakealotPrice(found, nodes).None?
  {
    FirstMapLeftmost(StructuredPrice, found);
    FirstMapLeftmost(ScanPrice, nodes);
  }

  // ----- Product ids -----

  predicate IsAsinChar(c: char) {
    ('A' <= c <= 'Z') || IsDigit(c)
  }

  /** `/\/dp\/([A-Z0-9]{10})/` matches at index `i`. */
  predicate AsinAt(url: string, i: int) {
    OccursAt(url, "/dp/", i) && i + 14 <= |url| && forall k | i + 4 <= k < i + 14 :: IsAsinChar(url[k])
  }

  /** The leftmost match of the ASIN pattern at or after `from`. */
  function FindAsin(url: string, from: nat): (r: Option<nat>)
    requires from <= |url|
    ensures r.Some? ==> from <= r.value && AsinAt(url, r.value)
    ensures r.Some? ==> forall i | from <= i < r.value :: !AsinAt(url, i)
    ensures r.None? ==> forall i | from <= i :: !AsinAt(url, i)
    decreases |url| - from
  {
    if from + 14 > |url| then None
    else if AsinAt(url, from) then Some(from)
    else FindAsin(url, from + 1)
  }

  /**
   * `AmazonExtractor.getProductId`: the ten characters after the first
   * `/dp/` that is followed by ten of `[A-Z0-9]`; failing that, the value of
   * the page's `ASIN` input, if there is one.
   */
  function AmazonProductId(url: string, asinInput: Option<string>): (r: Option<string>)
    ensures (exists i :: AsinAt(url, i)) ==>
              && r.Some? && |r.value| == 10
              && exists i :: AsinAt(url, i) && (forall j | 0 <= j < i :: !AsinAt(url, j)) && r.value == url[i + 4..i + 14]
    ensures (forall i :: !AsinAt(url, i)) ==> r == asinInput
  {
    match FindAsin(url, 0)
    case Some(i) => Some(url[i + 4..i + 14])
    case None => asinInput
  }

  /** `/PLID(\d+)/` matches at index `i`. */
  predicate PlidAt(url: string, i: int) {
    OccursAt(url, "PLID", i) && i + 4 < |url| && IsDigit(url[i + 4])
  }

  function FindPlid(url: string, from: nat): (r: Option<nat>)
    requires from <= |url|
    ensures r.Some? ==> from <= r.value && PlidAt(url, r.value)
    ensures r.Some? ==> forall i | from <= i < r.value :: !PlidAt(url, i)
    ensures r.None? ==> forall i | from <= i :: !PlidAt(url, i)
    decreases |url| - from
  {
    if from + 5 > |url| then None
    else if PlidAt(url, from) then Some(from)
    else FindPlid(url, from + 1)
  }

  /**
   * `TakealotExtractor.getProductId`: the whole run of digits after the
   * first `PLID` that is followed by a digit, or none.
   */
  function TakealotProductId(url: string): (r: Option<string>)
    ensures r.None? <==> forall i :: !PlidAt(url, i)
    ensures r.Some? ==> |r.value| > 0 && AllDigits(r.value)
    ensures r.Some? ==> exists i :: && PlidAt(url, i)
                                   && (forall j | 0 <= j < i :: !PlidAt(url, j))
                                   && r.value == url[i + 4..DigitRunEnd(url, i + 4)]
  {
    match FindPlid(url, 0)
    case Some(i) => Some(url[i + 4..DigitRunEnd(url, i + 4)])
    case None => None
  }

  /** The product id the site's extractor reads. */
  function PageProductId(site: Site, url: string, dom: Dom): Option<string> {
    match site
    case AmazonUs => AmazonProductId(url, dom.asinInput)
    case AmazonZa => AmazonProductId(url, dom.asinInput)
    case Takealot => TakealotProductId(url)
  }

  /** The price the site's extractor reads. */
  function PagePrice(site: Site, dom: Dom): (r: Option<real>)
    ensures r.Some? ==> r.value > 0.0
  {
    match site
    case AmazonUs => AmazonPrice(dom.amazonPrices)
    case AmazonZa => AmazonPrice(dom.amazonPrices)
    case Takealot => TakealotPrice(dom.takealotPrices, dom.elements)
  }

  /**
   * `getPrice` of the site's extractor: Amazon's nested loop over every
   * element of every selector; Takealot's loop over its selectors, then the
   * text scan over every element when they find nothing.
   */
  method GetPrice(site: Site, dom: Dom) returns (price: Option<real>)
    ensures price == PagePrice(site, dom)
  {
    if site == AmazonUs || site == AmazonZa {
      price := FirstMatchNested(ElementPrice, dom.amazonPrices);
    } else {
      price := FirstMatch(StructuredPrice, dom.takealotPrices);
      if price.None? {
        price := FirstMatch(ScanPrice, dom.elements);
      }
    }
  }

  // ----- Titles -----

  const UnknownProduct := "Unknown Product"

  /** A title candidate's text, trimmed, when the element exists and the text is not blank. */
  function CandidateTitle(element: Option<string>): (r: Option<string>)
    ensures r.Some? ==> r.value != ""
  {
    match element
    case Some(text) => if Trim(text) != "" then Some(Trim(text)) else None
    case None => None
  }

  /** The trimmed text of the first title candidate that is present and not blank. */
  function SelectorTitle(found: seq<Option<string>>): (r: Option<string>)
    ensures r.Some? ==> r.value != ""
  {
    FirstMapLeftmost(CandidateTitle, found);
    FirstSome(MapSeq(CandidateTitle, found))
  }

  /** `AmazonExtractor.getTitle`: a selector's title, else "Unknown Product"; never empty. */
  function AmazonTitle(found: seq<Option<string>>): (r: string)
    ensures r != ""
  {
    SelectorTitle(found).GetOr(UnknownProduct)
  }

  /**
   * `TakealotExtractor.getTitle`: a selector's title, else the document
   * title up to its first `|`, trimmed, else "Unknown Product"; never empty.
   */
  function TakealotTitle(found: seq<Option<string>>, documentTitle: string): (r: string)
    ensures r != ""
    ensures SelectorTitle(found).None? && r != UnknownProduct ==> '|' !in r
  {
    match SelectorTitle(found)
    case Some(t) => t
    case None =>
      var fromDocument := Trim(BeforeFirst(documentTitle, '|'));
      TrimIsSlice(BeforeFirst(documentTitle, '|'));
      if fromDocument != "" then fromDocument else UnknownProduct
  }

  method GetTitle(site: Site, dom: Dom) returns (title: string)
    ensures title == PageTitle(site, dom)
  {
    if site == AmazonUs || site == AmazonZa {
      var t := FirstMatch(CandidateTitle, dom.amazonTitles);
      title := if t.Some? then t.value else UnknownProduct;
    } else {
      var t := FirstMatch(CandidateTitle, dom.takealotTitles);
      if t.Some? {
        title := t.value;
      } else {
        var fromDocument := Trim(BeforeFirst(dom.documentTitle, '|'));
        title := if fromDocument != "" then fromDocument else UnknownProduct;
      }
    }
  }

  function PageTitle(site: Site, dom: Dom): (r: string)
    ensures r != ""
  {
    match site
    case AmazonUs => AmazonTitle(dom.amazonTitles)
    case AmazonZa => AmazonTitle(dom.amazonTitles)
    case Takealot => TakealotTitle(dom.takealotTitles, dom.documentTitle)
  }

  // ----- Images -----

  /** `img.src || img.getAttribute('data-old-hires') || img.getAttribute('data-a-dynamic-image')`. */
  function AmazonImageUrl(img: ImageElement): Option<string> {
    if img.src != "" then Some(img.src)
    else if img.oldHires.Some? && img.oldHires.value != "" then img.oldHires
    else img.dynamicImage
  }

  /** The first selector that matched at all decides, even when its URL is empty. */
  function FirstFound<T>(found: seq<Option<T>>): (i: nat)
    ensures i <= |found|
    ensures forall j | 0 <= j < i :: found[j].None?
    ensures i < |found| ==> found[i].Some?
  {
    if found == [] || found[0].Some? then 0 else 1 + FirstFound(found[1..])
  }

  function PageImage(site: Site, dom: Dom): Option<string> {
    match site
    case AmazonUs => AmazonImage(dom.amazonImages)
    case AmazonZa => AmazonImage(dom.amazonImages)
    case Takealot =>
      var i := FirstFound(dom.takealotImages);
      if i < |dom.takealotImages| then dom.takealotImages[i] else None
  }

  function AmazonImage(found: seq<Option<ImageElement>>): Option<string> {
    var i := FirstFound(found);
    if i < |found| then AmazonImageUrl(found[i].value) else None
  }

  /**
   * `getImage` of either extractor: the URL of the first selector's image
   * that exists; none when no selector matches.
   */
  method GetImage(site: Site, dom: Dom) returns (image: Option<string>)
    ensures site != Takealot ==>
              (forall j | 0 <= j < |dom.amazonImages| :: dom.amazonImages[j].None?) ==> image.None?
    ensures site != Takealot ==>
              forall i | 0 <= i < |dom.amazonImages| && dom.amazonImages[i].Some? ::
                (forall j | 0 <= j < i :: dom.amazonImages[j].None?) ==> image == AmazonImageUrl(dom.amazonImages[i].value)
    ensures site == Takealot ==>
              forall i | 0 <= i < |dom.takealotImages| && dom.takealotImages[i].Some? ::
                (forall j | 0 <= j < i :: dom.takealotImages[j].None?) ==> image == dom.takealotImages[i]
    ensures image == PageImage(site, dom)
  {
    image := None;
    if site == AmazonUs || site == AmazonZa {
      var i := 0;
      while i < |dom.amazonImages|
        invariant 0 <= i <= |dom.amazonImages|
        invariant forall j | 0 <= j < i :: dom.amazonImages[j].None?
      {
        var img := dom.amazonImages[i];
        if img.Some? {
          assert FirstFound(dom.amazonImages) == i;
          return AmazonImageUrl(img.value);
        }
        i := i + 1;
      }
    } else {
      var i := 0;
      while i < |dom.takealotImages|
        invariant 0 <= i <= |dom.takealotImages|
        invariant forall j | 0 <= j < i :: dom.takealotImages[j].None?
      {
        var img := dom.takealotImages[i];
        if img.Some? {
          assert FirstFound(dom.takealotImages) == i;
          return img;
        }
        i := i + 1;
      }
    }
  }
}
