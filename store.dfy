/**
 * `ProductTracker.saveProduct`: reading a product page, and the upsert of
 * its record into the `products` dictionary kept in extension storage.
 * The dictionary is the `products` field of a `ProductStore`; reading it
 * from storage and writing it back are one `Upsert` call here.
 */
module Store {
  import opened Wrappers
  import opened Text
  import opened Sites
  import opened History
  import opened Extractors

  /** A tracked product as stored: what the first save saw, its history and `lastChecked`. */
  datatype ProductRecord = ProductRecord(
    site: Site,
    title: string,
    url: string,
    image: Option<string>,
    history: seq<PricePoint>,
    lastChecked: Option<int>)

  /** One reading of a product page, with the clock's `Date.now()` and ISO date. */
  datatype Observation = Observation(
    site: Site,
    productId: string,
    price: real,
    title: string,
    url: string,
    image: Option<string>,
    timestamp: int,
    date: string)

  /** The storage key `${site}_${productId}`. */
  function StoreKey(site: Site, productId: string): string {
    SiteName(site) + "_" + productId
  }

  lemma SiteNamesDiffer(a: Site, b: Site)
    requires a != b
    ensures exists k | 0 <= k < |SiteName(a)| && k < |SiteName(b)| :: SiteName(a)[k] != SiteName(b)[k]
  {
    if a == Takealot || b == Takealot {
      assert SiteName(a)[0] != SiteName(b)[0];
    } else {
      assert SiteName(a)[7] != SiteName(b)[7];
    }
  }

  /**
   * Different products never share a record: the key determines the site
   * and the product id.
   */
  lemma StoreKeyInjective(s1: Site, id1: string, s2: Site, id2: string)
    ensures StoreKey(s1, id1) == StoreKey(s2, id2) <==> s1 == s2 && id1 == id2
  {
    var k1, k2 := StoreKey(s1, id1), StoreKey(s2, id2);
    if s1 != s2 {
      SiteNamesDiffer(s1, s2);
      var k :| 0 <= k < |SiteName(s1)| && k < |SiteName(s2)| && SiteName(s1)[k] != SiteName(s2)[k];
      assert k1[k] == SiteName(s1)[k] && k2[k] == SiteName(s2)[k];
    } else if k1 == k2 {
      var n := |SiteName(s1)| + 1;
      assert id1 == k1[n..] && id2 == k2[n..];
    }
  }

  function Key(obs: Observation): string {
    StoreKey(obs.site, obs.productId)
  }

  function PointOf(obs: Observation): PricePoint {
    PricePoint(obs.price, obs.timestamp, obs.date)
  }

  /** The history as read before the append: the stored one, or `[]` for a new product. */
  function PriorHistory(existing: Option<ProductRecord>): seq<PricePoint> {
    if existing.Some? then existing.value.history else []
  }

  /**
   * A stored record after any save: a non-empty history within the 60-point
   * window, positive prices only, and `lastChecked` the timestamp of the last point.
   */
  predicate RecordValid(r: ProductRecord) {
    && 0 < |r.history| <= MaxHistory
    && AllPositive(r.history)
    && r.lastChecked == Some(r.history[|r.history| - 1].timestamp)
  }

  /**
   * The record after saving `obs` over `existing`. A new record takes the
   * observation's site, title, URL and image, and later saves never change
   * them (first write wins); the history gains the new point under the
   * 60-point window; `lastChecked` is the new timestamp; and the result is a
   * valid record whenever the price is positive and the prior history was.
   */
  function Upserted(existing: Option<ProductRecord>, obs: Observation): (r: ProductRecord)
    ensures existing.Some? ==>
              r.(history := existing.value.history, lastChecked := existing.value.lastChecked) == existing.value
    ensures existing.None? ==>
              r.site == obs.site && r.title == obs.title && r.url == obs.url && r.image == obs.image
    ensures r.history == Appended(PriorHistory(existing), PointOf(obs))
    ensures r.lastChecked == Some(obs.timestamp)
    ensures obs.price > 0.0 && AllPositive(PriorHistory(existing)) ==> RecordValid(r)
  {
    var base := if existing.Some? then existing.value
                else ProductRecord(obs.site, obs.title, obs.url, obs.image, [], None);
    var r := base.(history := Appended(base.history, PointOf(obs)), lastChecked := Some(obs.timestamp));
    assert forall i | 0 <= i < |r.history| - 1 :: r.history[i] in base.history;
    r
  }

  function Lookup(products: map<string, ProductRecord>, key: string): Option<ProductRecord> {
    if key in products then Some(products[key]) else None
  }

  /** Every stored record is valid. */
  ghost predicate StoreValid(products: map<string, ProductRecord>) {
    forall key | key in products :: RecordValid(products[key])
  }

  /** Saving a positive price keeps every record of the store valid. */
  lemma UpsertKeepsValid(products: map<string, ProductRecord>, obs: Observation)
    requires StoreValid(products) && obs.price > 0.0
    ensures AllPositive(PriorHistory(Lookup(products, Key(obs))))
    ensures StoreValid(products[Key(obs) := Upserted(Lookup(products, Key(obs)), obs)])
  {
    var existing := Lookup(products, Key(obs));
    assert AllPositive(PriorHistory(existing)) by {
      if existing.Some? {
        assert RecordValid(products[Key(obs)]);
      }
    }
  }

  /** `history.push(point)`, then `slice(-60)` when the history outgrew the window. */
  method PushPoint(history: seq<PricePoint>, point: PricePoint) returns (r: seq<PricePoint>)
    ensures r == Appended(history, point)
  {
    r := history + [point];
    if |r| > MaxHistory {
      r := r[|r| - MaxHistory..];
    }
  }

  /**
   * The callback's work on `products[key]`: a new record when there was
   * none, the last price read before the push, the point pushed under the
   * 60-point window, and `lastChecked` stamped.
   */
  method UpdateRecord(existing: Option<ProductRecord>, obs: Observation) returns (record: ProductRecord, lastPrice: Option<real>)
    requires AllPositive(PriorHistory(existing))
    ensures record == Upserted(existing, obs)
    ensures lastPrice == LastPrice(PriorHistory(existing))
    ensures lastPrice.Some? ==> lastPrice.value > 0.0
  {
    if existing.Some? {
      record := existing.value;
    } else {
      record := ProductRecord(obs.site, obs.title, obs.url, obs.image, [], None);
    }
    var history := record.history;
    lastPrice := if |history| > 0 then Some(history[|history| - 1].price) else None;
    history := PushPoint(history, PricePoint(obs.price, obs.timestamp, obs.date));
    record := record.(history := history, lastChecked := Some(obs.timestamp));
  }

  class ProductStore {
    /** The `products` dictionary of extension storage, by storage key. */
    var products: map<string, ProductRecord>

    ghost predicate Valid()
      reads this
    {
      StoreValid(products)
    }

    /** Storage before anything was tracked (`result.products || {}`). */
    constructor ()
      ensures products == map[] && Valid()
    {
      products := map[];
    }

    /**
     * The storage callback of `saveProduct`: create the record if the key is
     * new, read the last price, push the point, keep the last 60, stamp
     * `lastChecked`, and report a change when the last price differs.
     * Only the observation's key changes.
     */
    method Upsert(obs: Observation) returns (change: Option<ChangeEvent>)
      requires Valid() && obs.price > 0.0
      modifies this
      ensures Valid()
      ensures products == old(products)[Key(obs) := Upserted(Lookup(old(products), Key(obs)), obs)]
      ensures change == DetectChange(PriorHistory(Lookup(old(products), Key(obs))), obs.price)
    {
      var key := Key(obs);
      var existing := Lookup(products, key);
      UpsertKeepsValid(products, obs);
      var record, lastPrice := UpdateRecord(existing, obs);
      products := products[key := record];
      change := ChangeFrom(lastPrice, obs.price);
    }

    /**
     * `saveProduct` on a page: read it with the site's extractor and, when
     * `ReadPage` accepts it, upsert the observation stamped with `timestamp`
     * and `date`. A page that is skipped leaves storage untouched.
     */
    method SaveProduct(page: Page, timestamp: int, date: string) returns (outcome: SaveOutcome)
      requires Valid()
      modifies this
      ensures Valid()
      ensures ReadPage(page).Skipped? ==>
                outcome == NotSaved(ReadPage(page).reason) && products == old(products)
      ensures ReadPage(page).Read? ==>
                var obs := ObservationOf(ReadPage(page), timestamp, date);
                && outcome == Saved(Key(obs), DetectChange(PriorHistory(Lookup(old(products), Key(obs))), obs.price))
                && products == old(products)[Key(obs) := Upserted(Lookup(old(products), Key(obs)), obs)]
    {
      var site := Detect(page.hostname);
      if site.None? {
        return NotSaved(UnsupportedSite);
      }
      if !IsProductPage(page.hostname, page.href) {
        return NotSaved(NotProductPage);
      }
      var productId := PageProductId(site.value, page.href, page.dom);
      var price := GetPrice(site.value, page.dom);
      var title := GetTitle(site.value, page.dom);
      var image := GetImage(site.value, page.dom);
      if productId.None? || productId.value == "" {
        return NotSaved(MissingProductId);
      }
      if price.None? {
        return NotSaved(MissingPrice);
      }
      var url := BeforeFirst(page.href, '?');
      var obs := Observation(site.value, productId.value, price.value, title, url, image, timestamp, date);
      var change := Upsert(obs);
      outcome := Saved(Key(obs), change);
    }
  }

  /** The page `saveProduct` runs on: `location.hostname`, `location.href` and what the DOM offers. */
  datatype Page = Page(hostname: string, href: string, dom: Dom)

  /** Why `saveProduct` returns early, before touching storage. */
  datatype Skip = UnsupportedSite | NotProductPage | MissingProductId | MissingPrice

  /** A page read: skipped for a reason, or the product's fields. */
  datatype Reading =
    | Skipped(reason: Skip)
    | Read(site: Site, productId: string, price: real, title: string, image: Option<string>, url: string)

  datatype SaveOutcome = NotSaved(reason: Skip) | Saved(key: string, change: Option<ChangeEvent>)

  /**
   * The checks `saveProduct` makes in order: a supported site, a product
   * page, a non-empty product id, a price. A page that passes them yields a
   * positive price, a non-empty title, and the URL without its query string.
   */
  function ReadPage(page: Page): (r: Reading)
    ensures r == Skipped(UnsupportedSite) <==> Detect(page.hostname).None?
    ensures r == Skipped(NotProductPage) <==>
              Detect(page.hostname).Some? && !IsProductPage(page.hostname, page.href)
    ensures r == Skipped(MissingProductId) <==>
              && Detect(page.hostname).Some? && IsProductPage(page.hostname, page.href)
              && PageProductId(Detect(page.hostname).value, page.href, page.dom) in {None, Some("")}
    ensures r == Skipped(MissingPrice) <==>
              && Detect(page.hostname).Some? && IsProductPage(page.hostname, page.href)
              && PageProductId(Detect(page.hostname).value, page.href, page.dom) !in {None, Some("")}
              && PagePrice(Detect(page.hostname).value, page.dom).None?
    ensures r.Read? ==>
              && r.site == Detect(page.hostname).value
              && Some(r.productId) == PageProductId(r.site, page.href, page.dom) && r.productId != ""
              && Some(r.price) == PagePrice(r.site, page.dom) && r.price > 0.0
              && r.title == PageTitle(r.site, page.dom) && r.title != ""
              && r.image == PageImage(r.site, page.dom)
              && r.url == BeforeFirst(page.href, '?') && '?' !in r.url
  {
    match Detect(page.hostname)
    case None => Skipped(UnsupportedSite)
    case Some(site) =>
      if !IsProductPage(page.hostname, page.href) then Skipped(NotProductPage)
      else
        var productId := PageProductId(site, page.href, page.dom);
        var price := PagePrice(site, page.dom);
        if productId.None? || productId.value == "" then Skipped(MissingProductId)
        else if price.None? then Skipped(MissingPrice)
        else Read(site, productId.value, price.value, PageTitle(site, page.dom), PageImage(site, page.dom),
                  BeforeFirst(page.href, '?'))
  }

  function ObservationOf(r: Reading, timestamp: int, date: string): Observation
    requires r.Read?
  {
    Observation(r.site, r.productId, r.price, r.title, r.url, r.image, timestamp, date)
  }
}
