/** The extraction engine of `scraper.py`: site dispatch and the selector profiles, the product
    field extractors and the acceptance rule, the general-page extractors, and the `WebScraper`
    object that fetches a page and runs them. */
module Scraper {
  import opened Wrappers
  import opened Seqs
  import opened Text
  import opened Dicts
  import opened Html
  import opened Normalise
  import opened Patterns
  import opened JsonData

  // ---------------------------------------------------------------------------------------------
  // Site dispatch and selector profiles

  /** The site names tested against the URL, in the order the tests are made. */
  const Sites: seq<string> := ["amazon", "ebay", "daraz"]

  /** The first of `names` that occurs in the URL. */
  function FirstContained(url: string, names: seq<string>): (r: Option<string>)
    ensures r.Some? ==> exists k :: 0 <= k < |names| && names[k] == r.value && Contains(url, names[k])
                                    && forall j :: 0 <= j < k ==> !Contains(url, names[j])
    ensures r.None? <==> forall k :: 0 <= k < |names| ==> !Contains(url, names[k])
  {
    if names == [] then None
    else if Contains(url, names[0]) then Some(names[0])
    else
      var r := FirstContained(url, names[1..]);
      assert forall k :: 1 <= k < |names| ==> names[k] == names[1..][k - 1];
      r
  }

  /** The site whose name occurs first in the test order: amazon, then ebay, then daraz. */
  function DetectSite(url: string): (r: Option<string>)
    ensures r.Some? ==> r.value in ProductSelectors
  {
    assert forall k :: 0 <= k < |Sites| ==> Sites[k] in ProductSelectors by {
      assert Sites == ["amazon", "ebay", "daraz"];
    }
    FirstContained(url, Sites)
  }

  /** A site's selector profile: field name to CSS selector. */
  type Profile = map<string, string>

  const AmazonSelectors: Profile := map[
    "price" := "#priceblock_ourprice, .a-price-whole",
    "title" := "#productTitle",
    "rating" := "#acrPopover",
    "reviews" := "#acrCustomerReviewText",
    "availability" := "#availability span"]

  const EbaySelectors: Profile := map[
    "price" := ".x-price-primary",
    "title" := ".x-item-title",
    "rating" := ".stars-ratings",
    "reviews" := ".review-ratings-count",
    "availability" := ".quantity-available"]

  const DarazSelectors: Profile := map[
    "price" := ".pdp-price",
    "title" := ".pdp-mod-product-badge-title",
    "rating" := ".score",
    "reviews" := ".count",
    "availability" := ".stock",
    "image_url" := ".gallery-preview-panel__image",
    "seller" := ".pdp-product-brand a",
    "specifications" := ".specification-keys li"]

  /** `product_selectors` */
  const ProductSelectors: map<string, Profile> :=
    map["amazon" := AmazonSelectors, "ebay" := EbaySelectors, "daraz" := DarazSelectors]

  /** The profile keys the site path reads, in the order it reads them. */
  const ProfileKeys: seq<string> :=
    ["title", "price", "rating", "reviews", "availability", "image_url", "seller", "specifications"]

  /** The first of `keys` the profile lacks: the key whose lookup raises `KeyError`. */
  function FirstMissing(profile: Profile, keys: seq<string>): (r: Option<string>)
    ensures r.Some? ==> exists k :: 0 <= k < |keys| && keys[k] == r.value && keys[k] !in profile
                                    && forall j :: 0 <= j < k ==> keys[j] in profile
    ensures r.None? <==> forall k :: 0 <= k < |keys| ==> keys[k] in profile
  {
    if keys == [] then None
    else if keys[0] !in profile then Some(keys[0])
    else
      var r := FirstMissing(profile, keys[1..]);
      assert forall k :: 1 <= k < |keys| ==> keys[k] == keys[1..][k - 1];
      r
  }

  /** The amazon and ebay profiles lack `image_url`, the first key the site path reads after the
      five they define. */
  lemma AmazonProfileMissesImageUrl()
    ensures FirstMissing(ProductSelectors["amazon"], ProfileKeys) == Some("image_url")
  {
    var p := AmazonSelectors;
    assert ProfileKeys[0] in p && ProfileKeys[1] in p && ProfileKeys[2] in p;
    assert ProfileKeys[3] in p && ProfileKeys[4] in p && ProfileKeys[5] !in p;
  }

  lemma EbayProfileMissesImageUrl()
    ensures FirstMissing(ProductSelectors["ebay"], ProfileKeys) == Some("image_url")
  {
    var p := EbaySelectors;
    assert ProfileKeys[0] in p && ProfileKeys[1] in p && ProfileKeys[2] in p;
    assert ProfileKeys[3] in p && ProfileKeys[4] in p && ProfileKeys[5] !in p;
  }

  /** The daraz profile has every key the site path reads. */
  lemma DarazProfileComplete()
    ensures FirstMissing(ProductSelectors["daraz"], ProfileKeys) == None
  {
    var p := DarazSelectors;
    assert ProfileKeys[0] in p && ProfileKeys[1] in p && ProfileKeys[2] in p && ProfileKeys[3] in p;
    assert ProfileKeys[4] in p && ProfileKeys[5] in p && ProfileKeys[6] in p && ProfileKeys[7] in p;
  }

  // ---------------------------------------------------------------------------------------------
  // Product field extractors

  /** The selectors the extractors fall back to when the caller gives none. */
  const PriceSelector := ".price, .product-price, [class*=\"price\"]"
  const RatingSelector := ".rating, .stars, [class*=\"rating\"]"
  const ReviewsSelector := ".reviews-count, [class*=\"review\"]"
  const AvailabilitySelector := ".availability, .stock-status, [class*=\"stock\"]"
  const ImageSelector := "img"
  const SellerSelector := ".seller, .vendor, [class*=\"seller\"]"
  const SpecificationsSelector := ".specifications li, .specs li, .details li"
  const GenericTitleSelector := ".product-title, .item-title, h2, h3"

  /** Python's `selector or fallback`. */
  function OrDefault(selector: Option<string>, fallback: string): string {
    if selector.Some? && selector.value != "" then selector.value else fallback
  }

  /** No element before position `k` matches the selector. */
  predicate FirstMatch(web: Web, scope: seq<Element>, selector: string, k: nat)
    requires k <= |scope|
  {
    forall j :: 0 <= j < k ==> !web.matches(scope[j], selector)
  }

  /** `_extract_text`: the stripped text of what `select_one` finds, or the fallback when it finds
      nothing. */
  function ExtractText(web: Web, scope: seq<Element>, selector: string, fallback: string): (r: string)
    ensures SelectOne(web, scope, selector).Some? ==> r == SelectOne(web, scope, selector).value.text
    ensures SelectOne(web, scope, selector).None? ==> r == fallback
  {
    match SelectOne(web, scope, selector)
    case Some(e) => e.text
    case None => fallback
  }

  /** The extracted text is the stripped text of the first element that matches, and the fallback
      only when nothing matches. */
  lemma ExtractTextIsFirstMatch(web: Web, scope: seq<Element>, selector: string, fallback: string)
    ensures forall k :: 0 <= k < |scope| && web.matches(scope[k], selector) && FirstMatch(web, scope, selector, k) ==>
                          ExtractText(web, scope, selector, fallback) == scope[k].text
    ensures (forall k :: 0 <= k < |scope| ==> !web.matches(scope[k], selector)) ==> ExtractText(web, scope, selector, fallback) == fallback
  {
  }

  /** `_extract_price` */
  function PriceIn(web: Web, scope: seq<Element>, selector: Option<string>): (r: Option<real>)
    ensures r.Some? ==> r.value >= 0.0
  {
    var text := ExtractText(web, scope, OrDefault(selector, PriceSelector), "");
    ParsePriceDefined(text);
    ParsePrice(text)
  }

  /** `_detect_currency` */
  function CurrencyIn(web: Web, scope: seq<Element>, selector: Option<string>): Option<string> {
    DetectCurrency(ExtractText(web, scope, OrDefault(selector, PriceSelector), ""))
  }

  /** `_extract_rating` */
  function RatingIn(web: Web, scope: seq<Element>, selector: Option<string>): Option<real> {
    ParseRating(ExtractText(web, scope, OrDefault(selector, RatingSelector), ""))
  }

  /** `_extract_reviews_count` */
  function ReviewsCountIn(web: Web, scope: seq<Element>, selector: Option<string>): nat {
    ParseReviewsCount(ExtractText(web, scope, OrDefault(selector, ReviewsSelector), ""))
  }

  /** `_extract_availability` */
  function AvailabilityIn(web: Web, scope: seq<Element>, selector: Option<string>): string {
    ExtractText(web, scope, OrDefault(selector, AvailabilitySelector), "")
  }

  /** `_extract_image`: the first match's `src` resolved against the page URL, if it has one. */
  function ImageIn(web: Web, base: string, scope: seq<Element>, selector: Option<string>): (r: Option<string>)
    ensures r.Some? <==> exists k :: 0 <= k < |scope| && web.matches(scope[k], OrDefault(selector, ImageSelector))
                                     && (forall j :: 0 <= j < k ==> !web.matches(scope[j], OrDefault(selector, ImageSelector)))
                                     && "src" in scope[k].attrs
                                     && r == Some(web.urljoin(base, scope[k].attrs["src"]))
  {
    match SelectOne(web, scope, OrDefault(selector, ImageSelector))
    case Some(img) => if "src" in img.attrs then Some(web.urljoin(base, img.attrs["src"])) else None
    case None => None
  }

  /** `_extract_seller` */
  function SellerIn(web: Web, scope: seq<Element>, selector: Option<string>): string {
    ExtractText(web, scope, OrDefault(selector, SellerSelector), "")
  }

  /** The availability and the seller are the text of the first element that the given selector
      matches (the default one when the selector is absent or empty), and `""` when none matches. */
  lemma AvailabilityIsFirstMatch(web: Web, scope: seq<Element>, selector: Option<string>)
    ensures var sel := if selector.Some? && selector.value != "" then selector.value else AvailabilitySelector;
            && (forall k :: 0 <= k < |scope| && web.matches(scope[k], sel) && FirstMatch(web, scope, sel, k) ==>
                              AvailabilityIn(web, scope, selector) == scope[k].text)
            && ((forall k :: 0 <= k < |scope| ==> !web.matches(scope[k], sel)) ==> AvailabilityIn(web, scope, selector) == "")
  {
    ExtractTextIsFirstMatch(web, scope, OrDefault(selector, AvailabilitySelector), "");
  }

  lemma SellerIsFirstMatch(web: Web, scope: seq<Element>, selector: Option<string>)
    ensures var sel := if selector.Some? && selector.value != "" then selector.value else SellerSelector;
            && (forall k :: 0 <= k < |scope| && web.matches(scope[k], sel) && FirstMatch(web, scope, sel, k) ==>
                              SellerIn(web, scope, selector) == scope[k].text)
            && ((forall k :: 0 <= k < |scope| ==> !web.matches(scope[k], sel)) ==> SellerIn(web, scope, selector) == "")
  {
    ExtractTextIsFirstMatch(web, scope, OrDefault(selector, SellerSelector), "");
  }

  /** What one specification item contributes, for each item the selector finds. */
  function SpecEntries(items: seq<Element>): (r: seq<Option<(string, string)>>)
    ensures |r| == |items| && forall k :: 0 <= k < |items| ==> r[k] == SpecEntry(items[k].text)
  {
    seq(|items|, k requires 0 <= k < |items| => SpecEntry(items[k].text))
  }

  /** `_extract_specifications` */
  function Specifications(web: Web, scope: seq<Element>, selector: Option<string>): map<string, string> {
    Build(SpecEntries(SelectAll(web, scope, OrDefault(selector, SpecificationsSelector))))
  }

  /** A key is present exactly when some listed item has a colon and that key before it; its value
      is the one the last such item gives. */
  lemma SpecificationsKeys(items: seq<Element>, key: string)
    ensures key in Build(SpecEntries(items)) <==>
              exists k :: 0 <= k < |items| && ':' in items[k].text && Strip(SplitOnce(items[k].text, ':').0) == key
  {
    var entries := SpecEntries(items);
    BuildKeys(entries, key);
    forall k | 0 <= k < |items|
      ensures HasKey(entries[k], key) <==> ':' in items[k].text && Strip(SplitOnce(items[k].text, ':').0) == key
    {
      SpecEntrySplitsAtFirstColon(items[k].text);
    }
  }

  lemma SpecificationsLastWins(items: seq<Element>, key: string, i: nat)
    requires LastWith(SpecEntries(items), key, i)
    ensures key in Build(SpecEntries(items))
    ensures ':' in items[i].text && Build(SpecEntries(items))[key] == Strip(SplitOnce(items[i].text, ':').1)
  {
    BuildLastWins(SpecEntries(items), key, i);
    SpecEntrySplitsAtFirstColon(items[i].text);
  }

  // ---------------------------------------------------------------------------------------------
  // Products and the acceptance rule

  datatype Product = Product(
    title: string,
    price: Option<real>,
    currency: Option<string>,
    rating: Option<real>,
    reviewsCount: nat,
    availability: string,
    imageUrl: Option<string>,
    seller: string,
    specifications: map<string, string>)
  {
    function ToJson(): Json {
      JObj(map[
        "title" := JStr(title),
        "price" := OptNum(price),
        "currency" := OptStr(currency),
        "rating" := OptNum(rating),
        "reviews_count" := JInt(reviewsCount),
        "availability" := JStr(availability),
        "image_url" := OptStr(imageUrl),
        "seller" := JStr(seller),
        "specifications" := StrMap(specifications)])
    }
  }

  /** `product_info["title"] and product_info["price"]`: a title and a price that is neither
      missing nor zero. */
  predicate Accepted(p: Product) {
    p.title != "" && p.price.Some? && p.price.value != 0.0
  }

  /** The candidate the site path builds from the whole page with a complete profile. */
  function SiteProduct(web: Web, base: string, doc: Document, profile: Profile, specs: map<string, string>): (p: Product)
    requires forall k :: 0 <= k < |ProfileKeys| ==> ProfileKeys[k] in profile
    ensures p.price.Some? ==> p.price.value >= 0.0
  {
    assert "title" == ProfileKeys[0] && "price" == ProfileKeys[1] && "rating" == ProfileKeys[2];
    assert "reviews" == ProfileKeys[3] && "availability" == ProfileKeys[4];
    assert "image_url" == ProfileKeys[5] && "seller" == ProfileKeys[6];
    var scope := doc.elements;
    Product(
      ExtractText(web, scope, profile["title"], ""),
      PriceIn(web, scope, Some(profile["price"])),
      CurrencyIn(web, scope, Some(profile["price"])),
      RatingIn(web, scope, Some(profile["rating"])),
      ReviewsCountIn(web, scope, Some(profile["reviews"])),
      AvailabilityIn(web, scope, Some(profile["availability"])),
      ImageIn(web, base, scope, Some(profile["image_url"])),
      SellerIn(web, scope, Some(profile["seller"])),
      specs)
  }

  /** The site path's candidate, or the `KeyError` of the first profile key it lacks. */
  function SiteCandidate(web: Web, base: string, doc: Document, profile: Profile): (r: Result<Product, Error>)
    ensures r.Failure? <==> FirstMissing(profile, ProfileKeys).Some?
    ensures r.Failure? ==> r.error == KeyError(FirstMissing(profile, ProfileKeys).value)
    ensures r.Success? ==> r.value.price.Some? ==> r.value.price.value >= 0.0
  {
    match FirstMissing(profile, ProfileKeys)
    case Some(k) => Failure(KeyError(k))
    case None =>
      assert "specifications" == ProfileKeys[7];
      Success(SiteProduct(web, base, doc, profile, Specifications(web, doc.elements, Some(profile["specifications"]))))
  }

  /** The candidate the generic path builds from one matched element, searching inside it. */
  function GenericProduct(web: Web, base: string, e: Element, specs: map<string, string>): (p: Product)
    ensures p.price.Some? ==> p.price.value >= 0.0
  {
    var scope := e.inner;
    Product(
      ExtractText(web, scope, GenericTitleSelector, ""),
      PriceIn(web, scope, None),
      CurrencyIn(web, scope, None),
      RatingIn(web, scope, None),
      ReviewsCountIn(web, scope, None),
      AvailabilityIn(web, scope, None),
      ImageIn(web, base, scope, None),
      SellerIn(web, scope, None),
      specs)
  }

  function GenericCandidate(web: Web, base: string, e: Element): (p: Product)
    ensures p.price.Some? ==> p.price.value >= 0.0
  {
    GenericProduct(web, base, e, Specifications(web, e.inner, None))
  }

  /** `find_all(class_=re.compile(r'product|item|listing'))`: a class attribute that contains one
      of the three words. */
  predicate IsProductElement(e: Element) {
    "class" in e.attrs
    && (Contains(e.attrs["class"], "product") || Contains(e.attrs["class"], "item") || Contains(e.attrs["class"], "listing"))
  }

  function ProductElements(doc: Document): seq<Element> {
    Filter(doc.elements, IsProductElement)
  }

  /** The candidates of the generic path, one per matched element. */
  function GenericCandidates(web: Web, base: string, es: seq<Element>): (r: seq<Product>)
    ensures |r| == |es| && forall k :: 0 <= k < |es| ==> r[k] == GenericCandidate(web, base, es[k])
    ensures NonNegativePrices(r)
  {
    seq(|es|, k requires 0 <= k < |es| => GenericCandidate(web, base, es[k]))
  }

  /** No product has a negative price. */
  predicate NonNegativePrices(ps: seq<Product>) {
    forall k :: 0 <= k < |ps| && ps[k].price.Some? ==> ps[k].price.value >= 0.0
  }

  /** The candidates appended by `if product_info["title"] and product_info["price"]`, in order:
      a candidate is kept exactly when it is accepted. */
  function KeepAccepted(cands: seq<Product>): (r: seq<Product>)
    ensures |r| <= |cands|
    ensures forall k :: 0 <= k < |r| ==> Accepted(r[k])
    ensures NonNegativePrices(cands) ==> AllAccepted(r)
  {
    FilterMembers(cands, Accepted);
    Filter(cands, Accepted)
  }

  /** Every kept candidate is one of the candidates, and every accepted candidate is kept. */
  lemma KeepAcceptedMembers(cands: seq<Product>)
    ensures forall k :: 0 <= k < |KeepAccepted(cands)| ==> KeepAccepted(cands)[k] in cands
    ensures forall k :: 0 <= k < |cands| && Accepted(cands[k]) ==> cands[k] in KeepAccepted(cands)
  {
    FilterMembers(cands, Accepted);
  }

  /** Keeping is done candidate by candidate, in order: one more candidate is appended exactly when
      it is accepted. */
  lemma KeepAcceptedSnoc(cands: seq<Product>, c: Product)
    ensures KeepAccepted(cands + [c]) == KeepAccepted(cands) + (if Accepted(c) then [c] else [])
  {
    FilterSnoc(cands, c, Accepted);
  }

  /** The accepted candidates of the generic path, in element order: each is the candidate of one
      of the elements, and the candidate of an element is kept exactly when it is accepted. */
  function GenericProducts(web: Web, base: string, es: seq<Element>): (r: seq<Product>)
    ensures |r| <= |es|
    ensures AllAccepted(r)
    ensures forall k :: 0 <= k < |r| ==> r[k] in GenericCandidates(web, base, es)
    ensures forall j :: 0 <= j < |es| && Accepted(GenericCandidates(web, base, es)[j]) ==> GenericCandidates(web, base, es)[j] in r
  {
    KeepAcceptedMembers(GenericCandidates(web, base, es));
    KeepAccepted(GenericCandidates(web, base, es))
  }

  /** What `extract_product_data` returns: `{}` without a page, otherwise the URL, the time and the
      accepted products. */
  datatype ProductData = NoDocument | Listing(url: string, timestamp: nat, products: seq<Product>)
  {
    function Record(): map<string, Json> {
      match this
      case NoDocument => map[]
      case Listing(url, timestamp, products) =>
        map["url" := JStr(url), "timestamp" := JInt(timestamp),
            "products" := JArr(seq(|products|, k requires 0 <= k < |products| => products[k].ToJson()))]
    }
  }

  /** The site path, given its candidate (see `SiteCandidate`): the candidate's exception, or a
      listing that holds the candidate exactly when it is accepted. */
  function SiteData(url: string, now: nat, c: Result<Product, Error>): (r: Result<ProductData, Error>)
    ensures c.Failure? ==> r == Failure(c.error)
    ensures c.Success? ==> r.Success? && r.value.Listing? && r.value.url == url && r.value.timestamp == now
    ensures c.Success? && Accepted(c.value) ==> r.value.products == [c.value]
    ensures c.Success? && !Accepted(c.value) ==> r.value.products == []
    ensures c.Success? && (c.value.price.Some? ==> c.value.price.value >= 0.0) ==> AllAccepted(r.value.products)
  {
    match c
    case Failure(e) => Failure(e)
    case Success(p) => Success(Listing(url, now, if Accepted(p) then [p] else []))
  }

  /** The generic path: the accepted candidates of the product elements, in document order. */
  function GenericData(web: Web, url: string, doc: Document, now: nat): (r: ProductData)
    ensures r.Listing? && r.url == url && r.timestamp == now
    ensures |r.products| <= |ProductElements(doc)| && AllAccepted(r.products)
    ensures var cands := GenericCandidates(web, url, ProductElements(doc));
            && (forall k :: 0 <= k < |r.products| ==> r.products[k] in cands)
            && (forall j :: 0 <= j < |cands| && Accepted(cands[j]) ==> cands[j] in r.products)
  {
    Listing(url, now, GenericProducts(web, url, ProductElements(doc)))
  }

  function ProductDataOf(web: Web, url: string, soup: Option<Document>, now: nat): (r: Result<ProductData, Error>)
    ensures soup.None? ==> r == Success(NoDocument)
    ensures soup.Some? && r.Success? ==> r.value.Listing? && r.value.url == url && r.value.timestamp == now
    ensures r.Success? && r.value.Listing? ==> AllAccepted(r.value.products)
    ensures soup.Some? && DetectSite(url).Some? && r.Success? ==> |r.value.products| <= 1
    ensures soup.Some? && DetectSite(url).None? ==> r.Success? && |r.value.products| <= |ProductElements(soup.value)|
    ensures soup.Some? && DetectSite(url).Some? ==>
              var c := SiteCandidate(web, url, soup.value, ProductSelectors[DetectSite(url).value]);
              && (c.Failure? ==> r == Failure(c.error))
              && (c.Success? ==> r.Success? && r.value.products == if Accepted(c.value) then [c.value] else [])
    ensures soup.Some? && DetectSite(url).None? ==>
              r.Success? && r.value.products == KeepAccepted(GenericCandidates(web, url, ProductElements(soup.value)))
  {
    match soup
    case None => Success(NoDocument)
    case Some(doc) =>
      var site := DetectSite(url);
      if site.Some? && site.value in ProductSelectors then SiteData(url, now, SiteCandidate(web, url, doc, ProductSelectors[site.value]))
      else Success(GenericData(web, url, doc, now))
  }

  /** An amazon or ebay URL never yields product data: the lookup of `image_url` raises. */
  lemma KnownSitesRaiseOnImageUrl(web: Web, url: string, doc: Document, now: nat)
    requires Contains(url, "amazon") || Contains(url, "ebay")
    ensures ProductDataOf(web, url, Some(doc), now) == Failure(KeyError("image_url"))
  {
    if Contains(url, "amazon") {
      assert DetectSite(url) == Some("amazon") by {
        assert Sites[0] == "amazon";
      }
      assert "amazon" in ProductSelectors;
      AmazonProfileMissesImageUrl();
    } else {
      assert DetectSite(url) == Some("ebay") by {
        assert Sites[0] == "amazon" && Sites[1] == "ebay";
      }
      assert "ebay" in ProductSelectors;
      EbayProfileMissesImageUrl();
    }
  }

  /** A daraz URL (with no amazon or ebay in it) always yields product data. */
  lemma DarazYieldsListing(web: Web, url: string, doc: Document, now: nat)
    requires Contains(url, "daraz") && !Contains(url, "amazon") && !Contains(url, "ebay")
    ensures ProductDataOf(web, url, Some(doc), now).Success?
  {
    assert DetectSite(url) == Some("daraz") by {
      assert Sites[0] == "amazon" && Sites[1] == "ebay" && Sites[2] == "daraz";
    }
    assert "daraz" in ProductSelectors;
    DarazProfileComplete();
    assert SiteCandidate(web, url, doc, ProductSelectors["daraz"]).Success?;
  }

  // ---------------------------------------------------------------------------------------------
  // Price tracking and comparison

  /** The message `track_price` returns, as data. */
  datatype PriceReport = PriceDropped(price: real, title: string) | CurrentPrice(current: Option<real>, title: string) | NotExtracted

  /** The decision `track_price` makes on the product data it extracted. */
  function Report(data: Result<ProductData, Error>, target: real): Result<PriceReport, Error> {
    match data
    case Failure(e) => Failure(e)
    case Success(NoDocument) => Failure(KeyError("products"))
    case Success(Listing(_, _, products)) =>
      if products == [] then Success(NotExtracted)
      else
        var p := products[0];
        if p.price.Some? && p.price.value != 0.0 && p.price.value <= target then Success(PriceDropped(p.price.value, p.title))
        else Success(CurrentPrice(p.price, p.title))
  }

  /** `track_price(url, target)` on the page the web gives for `url`. */
  function TrackPriceOf(web: Web, url: string, target: real, now: nat): Result<PriceReport, Error> {
    match GetSoup(web, url)
    case Failure(e) => Failure(e)
    case Success(soup) => Report(ProductDataOf(web, url, soup, now), target)
  }

  /** Every product is accepted and priced above zero. */
  predicate AllAccepted(products: seq<Product>) {
    forall k :: 0 <= k < |products| ==> Accepted(products[k]) && products[k].price.value > 0.0
  }

  /** Whatever produced the data, its products are all accepted. */
  predicate WellFormed(data: Result<ProductData, Error>) {
    data.Success? && data.value.Listing? ==> AllAccepted(data.value.products)
  }

  lemma ProductDataWellFormed(web: Web, url: string, soup: Option<Document>, now: nat)
    ensures WellFormed(ProductDataOf(web, url, soup, now))
  {
  }

  /** How `track_price` reports on a listing whose products are all accepted: "could not be
      extracted" exactly when there is no product; otherwise a drop exactly when the first product's
      price is at most the target, and in either message that product's price and title. */
  predicate ReportsFirst(products: seq<Product>, target: real, report: PriceReport)
    requires AllAccepted(products)
  {
    && (products == [] <==> report.NotExtracted?)
    && (products != [] ==>
          && (report.PriceDropped? <==> products[0].price.value <= target)
          && (report.PriceDropped? ==> report.price == products[0].price.value && report.title == products[0].title)
          && (report.CurrentPrice? ==> report.current == products[0].price && report.title == products[0].title))
  }

  lemma ReportOutcome(data: Result<ProductData, Error>, target: real)
    requires WellFormed(data)
    ensures var r := Report(data, target);
            && (data.Failure? ==> r == Failure(data.error))
            && (data == Success(NoDocument) ==> r == Failure(KeyError("products")))
            && (data.Success? && data.value.Listing? ==> r.Success? && ReportsFirst(data.value.products, target, r.value))
            && (r.Success? && r.value.PriceDropped? ==> 0.0 < r.value.price <= target)
            && (r.Success? && r.value.CurrentPrice? ==> r.value.current.Some? && r.value.current.value > target)
  {
    if data.Success? && data.value.Listing? && data.value.products != [] {
      assert Accepted(data.value.products[0]) && data.value.products[0].price.value > 0.0;
    }
  }

  /** A drop is reported exactly when the first product's price is at most the target; otherwise
      the price reported is above it. A page that cannot be fetched raises `KeyError`, a crash
      while fetching raises that crash, and an exception of the extraction is raised as it is. */
  lemma TrackPriceOutcome(web: Web, url: string, target: real, now: nat)
    ensures var r := TrackPriceOf(web, url, target, now);
            && (r.Success? && r.value.PriceDropped? ==> 0.0 < r.value.price <= target)
            && (r.Success? && r.value.CurrentPrice? ==> r.value.current.Some? && r.value.current.value > target)
            && (web.fetch(url).RequestFailed? ==> r == Failure(KeyError("products")))
            && (web.fetch(url).Crashed? ==> r == Failure(FetchCrash(web.fetch(url).message)))
            && (web.fetch(url).Page? ==>
                  var data := ProductDataOf(web, url, Some(web.fetch(url).doc), now);
                  && (data.Failure? ==> r == Failure(data.error))
                  && (data.Success? ==> r.Success? && ReportsFirst(data.value.products, target, r.value)))
  {
    var page := GetSoup(web, url);
    if page.Success? {
      ProductDataWellFormed(web, url, page.value, now);
      ReportOutcome(ProductDataOf(web, url, page.value, now), target);
    }
  }

  /** What one URL adds to the comparison: nothing when the listing is empty, or the first
      product's price, which is then positive; a page that cannot be fetched raises `KeyError`. */
  function CompareStep(web: Web, url: string, now: nat): (r: Result<Option<Option<real>>, Error>)
    ensures r.Success? && r.value.Some? ==> r.value.value.Some? && r.value.value.value > 0.0
    ensures web.fetch(url).Crashed? ==> r == Failure(FetchCrash(web.fetch(url).message))
    ensures web.fetch(url).RequestFailed? ==> r == Failure(KeyError("products"))
    ensures web.fetch(url).Page? ==>
              match ProductDataOf(web, url, Some(web.fetch(url).doc), now)
              case Failure(e) => r == Failure(e)
              case Success(NoDocument) => r == Failure(KeyError("products"))
              case Success(Listing(_, _, products)) =>
                && r.Success? && (products == [] <==> r.value.None?)
                && (products != [] ==> r == Success(Some(products[0].price)))
  {
    match GetSoup(web, url)
    case Failure(e) => Failure(e)
    case Success(soup) =>
      var data := ProductDataOf(web, url, soup, now);
      assert WellFormed(data);
      match data
      case Failure(e) => Failure(e)
      case Success(NoDocument) => Failure(KeyError("products"))
      case Success(Listing(_, _, products)) => if products == [] then Success(None) else Success(Some(products[0].price))
  }

  /** The step applied to each URL of a comparison. */
  function CompareSteps(web: Web, now: nat): string -> Result<Option<Option<real>>, Error> {
    (u: string) => CompareStep(web, u, now)
  }

  /** The map built URL by URL from what `step` gives each URL, stopping at the first exception: a
      URL is in the map exactly when its step gives a price, and a later occurrence of a URL writes
      the same price again. */
  function Collect(urls: seq<string>, step: string -> Result<Option<Option<real>>, Error>): (r: Result<map<string, Option<real>>, Error>)
    ensures r.Success? ==> forall u :: u in r.value ==> u in urls && step(u) == Success(Some(r.value[u]))
    ensures r.Success? ==> forall k :: 0 <= k < |urls| ==> step(urls[k]).Success?
    ensures r.Success? ==> forall k :: 0 <= k < |urls| && step(urls[k]).value.Some? ==> urls[k] in r.value
    ensures (forall k :: 0 <= k < |urls| ==> step(urls[k]).Success?) ==> r.Success?
    ensures r.Failure? ==> exists i :: 0 <= i < |urls| && FirstRaise(urls, step, i) && step(urls[i]) == Failure(r.error)
  {
    if urls == [] then Success(map[])
    else
      var n := |urls| - 1;
      var prefix := urls[..n];
      assert forall k :: 0 <= k < n ==> prefix[k] == urls[k];
      match Collect(prefix, step)
      case Failure(e) => Failure(e)
      case Success(m) =>
        match step(urls[n])
        case Failure(e) => Failure(e)
        case Success(None) => Success(m)
        case Success(Some(price)) => Success(m[urls[n] := price])
  }

  /** A step that raises after a prefix that succeeds is the first to raise. */
  lemma FirstRaiseAfterPrefix(urls: seq<string>, step: string -> Result<Option<Option<real>>, Error>, i: nat)
    requires i < |urls| && Collect(urls[..i], step).Success? && step(urls[i]).Failure?
    ensures FirstRaise(urls, step, i)
  {
    assert forall k :: 0 <= k < i ==> urls[..i][k] == urls[k];
  }

  /** Where `compare_prices` leaves the scraper when it raises: pointed at `urls[i]`, the first URL
      whose step raises, holding that URL's page when it was fetched, and otherwise the page it held
      before (the previous URL's, or `start` for the first URL). */
  predicate StoppedAt(web: Web, urls: seq<string>, now: nat, i: nat, u: string, soup: Option<Document>, start: Option<Document>)
    requires i < |urls|
  {
    && FirstRaise(urls, CompareSteps(web, now), i) && u == urls[i]
    && soup == if GetSoup(web, urls[i]).Success? then GetSoup(web, urls[i]).value
               else if i == 0 then start else GetSoup(web, urls[i - 1]).value
  }

  /** `urls[i]` is the first URL whose step raises. */
  predicate FirstRaise(urls: seq<string>, step: string -> Result<Option<Option<real>>, Error>, i: nat)
    requires i < |urls|
  {
    step(urls[i]).Failure? && forall k :: 0 <= k < i ==> step(urls[k]).Success?
  }

  /** Once a URL raises, the whole collection raises the same exception. */
  lemma {:induction false} CollectFailureSticks(urls: seq<string>, step: string -> Result<Option<Option<real>>, Error>, i: nat)
    requires i <= |urls| && Collect(urls[..i], step).Failure?
    ensures Collect(urls, step) == Collect(urls[..i], step)
    decreases |urls| - i
  {
    if i < |urls| {
      CollectSnoc(urls, step, i);
      CollectFailureSticks(urls, step, i + 1);
    } else {
      PrefixAll(urls);
    }
  }

  /** The collection one URL further on. */
  lemma CollectSnoc(urls: seq<string>, step: string -> Result<Option<Option<real>>, Error>, i: nat)
    requires i < |urls|
    ensures Collect(urls[..i + 1], step) == match Collect(urls[..i], step)
                                            case Failure(e) => Failure(e)
                                            case Success(m) =>
                                              match step(urls[i])
                                              case Failure(e) => Failure(e)
                                              case Success(None) => Success(m)
                                              case Success(Some(price)) => Success(m[urls[i] := price])
  {
    PrefixSnoc(urls, i);
  }

  /** `compare_prices(urls)`: the first exception raised, or the map built URL by URL, in which
      exactly the URLs whose first product has a price appear, each with that positive price. */
  function Comparison(web: Web, urls: seq<string>, now: nat): (r: Result<map<string, Option<real>>, Error>)
    ensures r.Success? ==> forall u :: u in r.value ==>
              u in urls && r.value[u].Some? && r.value[u].value > 0.0 && CompareStep(web, u, now) == Success(Some(r.value[u]))
    ensures r.Success? ==> forall k :: 0 <= k < |urls| ==>
              CompareStep(web, urls[k], now).Success? && (CompareStep(web, urls[k], now).value.Some? ==> urls[k] in r.value)
    ensures (forall k :: 0 <= k < |urls| ==> CompareStep(web, urls[k], now).Success?) ==> r.Success?
    ensures r.Failure? ==> exists i :: 0 <= i < |urls| && CompareStep(web, urls[i], now) == Failure(r.error)
                                       && forall k :: 0 <= k < i ==> CompareStep(web, urls[k], now).Success?
  {
    var r := Collect(urls, CompareSteps(web, now));
    assert forall u :: CompareSteps(web, now)(u) == CompareStep(web, u, now);
    r
  }

  // ---------------------------------------------------------------------------------------------
  // General-page extractors

  /** `attrs.get(name, fallback)` */
  function Attr(e: Element, name: string, fallback: string): string {
    if name in e.attrs then e.attrs[name] else fallback
  }

  /** What one `<meta>` tag assigns: its `name`, or else its `property`, to its `content`. */
  function MetaEntry(e: Element): Option<(string, string)> {
    if "name" in e.attrs then Some((e.attrs["name"], Attr(e, "content", "")))
    else if "property" in e.attrs then Some((e.attrs["property"], Attr(e, "content", "")))
    else None
  }

  function MetaEntries(metas: seq<Element>): (r: seq<Option<(string, string)>>)
    ensures |r| == |metas| && forall k :: 0 <= k < |metas| ==> r[k] == MetaEntry(metas[k])
  {
    seq(|metas|, k requires 0 <= k < |metas| => MetaEntry(metas[k]))
  }

  function MetaTags(doc: Document): seq<Element> {
    FindAllTag(doc.elements, "meta")
  }

  /** `extract_meta_info` */
  function MetaInfo(soup: Option<Document>): (r: map<string, string>)
    ensures soup.None? ==> r == map[]
  {
    match soup
    case None => map[]
    case Some(doc) => Build(MetaEntries(MetaTags(doc)))
  }

  /** The key a meta tag is filed under: `name` takes precedence over `property`. */
  predicate FiledUnder(e: Element, key: string) {
    if "name" in e.attrs then e.attrs["name"] == key else "property" in e.attrs && e.attrs["property"] == key
  }

  /** A key is present exactly when some meta tag is filed under it, and it holds the `content`
      (or `''`) of the last such tag. */
  lemma MetaInfoKeys(doc: Document, key: string)
    ensures key in MetaInfo(Some(doc)) <==> exists k :: 0 <= k < |MetaTags(doc)| && FiledUnder(MetaTags(doc)[k], key)
  {
    var metas := MetaTags(doc);
    BuildKeys(MetaEntries(metas), key);
    assert forall k :: 0 <= k < |metas| ==> (HasKey(MetaEntries(metas)[k], key) <==> FiledUnder(metas[k], key));
  }

  lemma MetaInfoLastWins(doc: Document, key: string, i: nat)
    requires i < |MetaTags(doc)| && FiledUnder(MetaTags(doc)[i], key)
    requires forall j :: i < j < |MetaTags(doc)| ==> !FiledUnder(MetaTags(doc)[j], key)
    ensures key in MetaInfo(Some(doc)) && MetaInfo(Some(doc))[key] == Attr(MetaTags(doc)[i], "content", "")
  {
    var metas := MetaTags(doc);
    var entries := MetaEntries(metas);
    assert forall j :: i < j < |entries| ==> !HasKey(entries[j], key);
    assert LastWith(entries, key, i);
    BuildLastWins(entries, key, i);
  }

  const HeaderTags: seq<string> := ["h1", "h2", "h3", "h4", "h5", "h6"]

  /** `[h.get_text(strip=True) for h in hs]` */
  function Texts(es: seq<Element>): (r: seq<string>)
    ensures |r| == |es| && forall k :: 0 <= k < |es| ==> r[k] == es[k].text
  {
    seq(|es|, k requires 0 <= k < |es| => es[k].text)
  }

  /** `extract_headers` */
  function Headers(soup: Option<Document>): map<string, seq<string>> {
    match soup
    case None => map[]
    case Some(doc) => map t | t in HeaderTags :: Texts(FindAllTag(doc.elements, t))
  }

  /** With a page the header map has exactly the keys `h1` to `h6`, each holding the texts of
      that tag's elements in document order; without one it is empty. */
  lemma HeadersShape(soup: Option<Document>)
    ensures soup.None? ==> Headers(soup) == map[]
    ensures soup.Some? ==> Headers(soup).Keys == {"h1", "h2", "h3", "h4", "h5", "h6"}
    ensures soup.Some? ==> forall t :: t in Headers(soup) ==> Headers(soup)[t] == Texts(FindAllTag(soup.value.elements, t))
  {
    assert (set t | t in HeaderTags) == {"h1", "h2", "h3", "h4", "h5", "h6"};
  }

  /** `extract_main_content` */
  function MainContent(soup: Option<Document>): string {
    match soup
    case None => ""
    case Some(doc) => doc.StrippedText()
  }

  /** Without a page the main content is `""`. With one, it never starts or ends with whitespace, is
      no longer than the page's text, and is empty exactly when that text is all whitespace. */
  lemma MainContentTrimmed(soup: Option<Document>)
    ensures soup.None? ==> MainContent(soup) == ""
    ensures Trimmed(MainContent(soup))
    ensures soup.Some? ==> |MainContent(soup)| <= |soup.value.Text()|
    ensures soup.Some? ==> (MainContent(soup) == "" <==> AllSpace(soup.value.Text()))
  {
    match soup
    case None =>
    case Some(doc) =>
      assert MainContent(soup) == JoinStripped(doc.strings) && doc.Text() == Concat(doc.strings);
      JoinStrippedTrimmed(doc.strings);
      JoinStrippedOfConcat(doc.strings);
  }

  /** `extract_contact_info` */
  function ContactInfo(soup: Option<Document>): (r: map<string, seq<string>>)
    ensures r.Keys <= {"emails", "phones"}
    ensures "emails" in r <==> soup.Some? && FindAll(EmailPattern, soup.value.Text()) != []
    ensures "phones" in r <==> soup.Some? && FindAll(PhonePattern, soup.value.Text()) != []
    ensures "emails" in r ==> r["emails"] == FindAll(EmailPattern, soup.value.Text())
    ensures "phones" in r ==> r["phones"] == FindAll(PhonePattern, soup.value.Text())
  {
    match soup
    case None => map[]
    case Some(doc) =>
      var emails := FindAll(EmailPattern, doc.Text());
      var phones := FindAll(PhonePattern, doc.Text());
      (if emails != [] then map["emails" := emails] else map[]) + (if phones != [] then map["phones" := phones] else map[])
  }

  /** Every listed email and phone number is a match of its pattern found in the page text. */
  lemma ContactInfoMatches(doc: Document)
    ensures var r := ContactInfo(Some(doc));
            && ("emails" in r ==> forall m :: m in r["emails"] ==> EmailShaped(m) && Contains(doc.Text(), m))
            && ("phones" in r ==> forall m :: m in r["phones"] ==> PhoneShaped(m) && Contains(doc.Text(), m))
  {
    FindAllFromMatches(EmailPattern, doc.Text(), 0);
    FindAllFromMatches(PhonePattern, doc.Text(), 0);
  }

  const Platforms: seq<string> := ["facebook", "twitter", "instagram", "linkedin", "youtube"]

  /** `find_all('a', href=re.compile(platform, re.IGNORECASE))` */
  function PlatformAnchor(platform: string): Element -> bool {
    (e: Element) => e.tag == "a" && "href" in e.attrs && ContainsIgnoringCase(e.attrs["href"], platform)
  }

  /** The values of one attribute that every element has. */
  function AttrValues(es: seq<Element>, name: string): (r: seq<string>)
    requires forall k :: 0 <= k < |es| ==> name in es[k].attrs
    ensures |r| == |es| && forall k :: 0 <= k < |es| ==> r[k] == es[k].attrs[name]
  {
    seq(|es|, k requires 0 <= k < |es| => es[k].attrs[name])
  }

  function PlatformLinks(doc: Document, platform: string): (r: seq<string>)
    ensures forall k :: 0 <= k < |r| ==> ContainsIgnoringCase(r[k], platform)
  {
    var anchors := Filter(doc.elements, PlatformAnchor(platform));
    assert forall k :: 0 <= k < |anchors| ==> PlatformAnchor(platform)(anchors[k]);
    AttrValues(anchors, "href")
  }

  /** `extract_social_links`: a platform is a key only when some link mentions it. */
  function SocialLinks(soup: Option<Document>): (r: map<string, seq<string>>)
    ensures soup.None? ==> r == map[]
  {
    match soup
    case None => map[]
    case Some(doc) => map p | p in Platforms && PlatformLinks(doc, p) != [] :: PlatformLinks(doc, p)
  }

  /** Only the five platforms appear, each with a non-empty list of hrefs that mention it, ignoring
      ASCII case. */
  lemma SocialLinksMention(doc: Document)
    ensures var r := SocialLinks(Some(doc));
            forall p :: p in r ==> p in Platforms && r[p] != [] && forall k :: 0 <= k < |r[p]| ==> ContainsIgnoringCase(r[p][k], p)
    ensures forall p :: p in Platforms && PlatformLinks(doc, p) != [] ==> p in SocialLinks(Some(doc))
  {
  }

  /** The hrefs of a platform are built anchor by anchor in document order: a page with no tags has
      none, and one more tag adds its `href` exactly when it is an `<a>` whose `href` mentions the
      platform. Nothing is deduplicated. */
  lemma PlatformLinksSnoc(es: seq<Element>, e: Element, strings: seq<string>, platform: string)
    ensures PlatformLinks(Document([], strings), platform) == []
    ensures PlatformLinks(Document(es + [e], strings), platform)
            == PlatformLinks(Document(es, strings), platform) + (if PlatformAnchor(platform)(e) then [e.attrs["href"]] else [])
  {
    FilterSnoc(es, e, PlatformAnchor(platform));
  }

  /** A platform's entry is its list of hrefs as the page gives them, and a platform is a key
      exactly when some `<a>` on the page has an `href` that mentions it. */
  lemma SocialLinksOfPage(doc: Document, platform: string)
    ensures platform in SocialLinks(Some(doc)) ==> SocialLinks(Some(doc))[platform] == PlatformLinks(doc, platform)
    ensures platform in SocialLinks(Some(doc)) <==>
              platform in Platforms && exists k :: 0 <= k < |doc.elements| && PlatformAnchor(platform)(doc.elements[k])
  {
    FilterMembers(doc.elements, PlatformAnchor(platform));
    var anchors := Filter(doc.elements, PlatformAnchor(platform));
    assert |PlatformLinks(doc, platform)| == |anchors|;
    if anchors != [] {
      var k :| 0 <= k < |doc.elements| && doc.elements[k] == anchors[0];
      assert PlatformAnchor(platform)(doc.elements[k]);
    }
    if exists k :: 0 <= k < |doc.elements| && PlatformAnchor(platform)(doc.elements[k]) {
      var k :| 0 <= k < |doc.elements| && PlatformAnchor(platform)(doc.elements[k]);
      assert doc.elements[k] in anchors;
    }
  }

  const ShopLink: Element := Element("a", map["href" := "https://facebook.com/shop"], "", [])

  lemma ShopLinkIsFacebook()
    ensures PlatformAnchor("facebook")(ShopLink)
  {
    assert Lower("https://facebook.com/shop")[8..16] == "facebook";
    ContainsAt(Lower("https://facebook.com/shop"), "facebook", 8);
  }

  lemma ShopLinkTwice(strings: seq<string>)
    ensures PlatformLinks(Document([ShopLink, ShopLink], strings), "facebook") == ["https://facebook.com/shop", "https://facebook.com/shop"]
  {
    ShopLinkIsFacebook();
    PlatformLinksSnoc([], ShopLink, strings, "facebook");
    PlatformLinksSnoc([ShopLink], ShopLink, strings, "facebook");
    assert [] + [ShopLink] == [ShopLink] && [ShopLink] + [ShopLink] == [ShopLink, ShopLink];
  }

  /** Two equal links to one platform are both listed. */
  lemma SocialLinksKeepDuplicates(strings: seq<string>)
    ensures && "facebook" in SocialLinks(Some(Document([ShopLink, ShopLink], strings)))
            && SocialLinks(Some(Document([ShopLink, ShopLink], strings)))["facebook"]
               == ["https://facebook.com/shop", "https://facebook.com/shop"]
  {
    var doc := Document([ShopLink, ShopLink], strings);
    ShopLinkIsFacebook();
    ShopLinkTwice(strings);
    assert "facebook" == Platforms[0] && PlatformAnchor("facebook")(doc.elements[0]);
    SocialLinksOfPage(doc, "facebook");
  }

  /** `urljoin(base, e[name])` for each element, all of which have the attribute. */
  function Resolved(web: Web, base: string, es: seq<Element>, name: string): (r: seq<string>)
    requires forall k :: 0 <= k < |es| ==> name in es[k].attrs
    ensures |r| == |es| && forall k :: 0 <= k < |es| ==> r[k] == web.urljoin(base, es[k].attrs[name])
  {
    seq(|es|, k requires 0 <= k < |es| => web.urljoin(base, es[k].attrs[name]))
  }

  /** The elements that have a `src`. */
  function Sourced(imgs: seq<Element>): (r: seq<Element>)
    ensures forall k :: 0 <= k < |r| ==> "src" in r[k].attrs
  {
    var r := Filter(imgs, HasAttr("src"));
    assert forall k :: 0 <= k < |r| ==> HasAttr("src")(r[k]);
    r
  }

  /** One more `<img>` adds its resolved `src`, if it has one. */
  lemma ResolvedSourcedSnoc(web: Web, base: string, imgs: seq<Element>, img: Element)
    ensures Resolved(web, base, Sourced(imgs + [img]), "src")
            == Resolved(web, base, Sourced(imgs), "src") + (if "src" in img.attrs then [web.urljoin(base, img.attrs["src"])] else [])
  {
    FilterSnoc(imgs, img, HasAttr("src"));
    if "src" in img.attrs {
      assert Sourced(imgs + [img]) == Sourced(imgs) + [img];
    } else {
      assert Sourced(imgs + [img]) == Sourced(imgs);
    }
  }

  /** The `<img>` tags that have a `src`. */
  function SourcedImages(doc: Document): seq<Element> {
    Sourced(FindAllTag(doc.elements, "img"))
  }

  /** `extract_images` */
  function Images(web: Web, base: string, soup: Option<Document>): seq<string> {
    match soup
    case None => []
    case Some(doc) => Resolved(web, base, SourcedImages(doc), "src")
  }

  /** The `<a>` tags that have an `href`: exactly those tags of the page. */
  function Anchors(doc: Document): (r: seq<Element>)
    ensures forall k :: 0 <= k < |r| ==> r[k].tag == "a" && "href" in r[k].attrs && r[k] in doc.elements
    ensures forall k :: 0 <= k < |doc.elements| && doc.elements[k].tag == "a" && "href" in doc.elements[k].attrs ==> doc.elements[k] in r
  {
    FilterMembers(doc.elements, (e: Element) => e.tag == "a" && "href" in e.attrs);
    Filter(doc.elements, (e: Element) => e.tag == "a" && "href" in e.attrs)
  }

  /** The anchors are taken tag by tag in document order: a page with no tags has none, and one more
      tag is appended exactly when it is an `<a>` with an `href`. */
  lemma AnchorsSnoc(es: seq<Element>, e: Element, strings: seq<string>)
    ensures Anchors(Document([], strings)) == []
    ensures Anchors(Document(es + [e], strings)) == Anchors(Document(es, strings)) + (if e.tag == "a" && "href" in e.attrs then [e] else [])
  {
    FilterSnoc(es, e, (e: Element) => e.tag == "a" && "href" in e.attrs);
  }

  /** `extract_links` */
  function Links(web: Web, base: string, soup: Option<Document>): seq<string> {
    match soup
    case None => []
    case Some(doc) => Resolved(web, base, Anchors(doc), "href")
  }

  /** The links are built tag by tag in document order: a page with no tags has none, and one more
      tag adds its resolved `href` exactly when it is an `<a>` with an `href`. */
  lemma LinksSnoc(web: Web, base: string, es: seq<Element>, e: Element, strings: seq<string>)
    ensures Links(web, base, Some(Document([], strings))) == []
    ensures Links(web, base, Some(Document(es + [e], strings)))
            == Links(web, base, Some(Document(es, strings))) + (if e.tag == "a" && "href" in e.attrs then [web.urljoin(base, e.attrs["href"])] else [])
  {
    FilterSnoc(es, e, (e: Element) => e.tag == "a" && "href" in e.attrs);
  }

  /** The general record of `extract_all_data`. */
  datatype GeneralData = GeneralData(
    url: string,
    metaInfo: map<string, string>,
    headers: map<string, seq<string>>,
    mainContent: string,
    contactInfo: map<string, seq<string>>,
    socialLinks: map<string, seq<string>>,
    images: seq<string>,
    links: seq<string>)
  {
    function Record(): map<string, Json> {
      map[
        "url" := JStr(url),
        "meta_info" := StrMap(metaInfo),
        "headers" := StrListMap(headers),
        "main_content" := JStr(mainContent),
        "contact_info" := StrListMap(contactInfo),
        "social_links" := StrListMap(socialLinks),
        "images" := StrList(images),
        "links" := StrList(links)]
    }
  }

  function GeneralOf(web: Web, url: string, soup: Option<Document>): (r: GeneralData)
    ensures r.url == url
    ensures soup.None? ==> r == GeneralData(url, map[], map[], "", map[], map[], [], [])
  {
    GeneralData(url, MetaInfo(soup), Headers(soup), MainContent(soup), ContactInfo(soup),
                SocialLinks(soup), Images(web, url, soup), Links(web, url, soup))
  }

  /** What `extract_all_data` returns in either mode. */
  datatype Extracted = Products(products: ProductData) | General(general: GeneralData)
  {
    /** The dict handed to the store. */
    function Record(): map<string, Json> {
      match this
      case Products(d) => d.Record()
      case General(g) => g.Record()
    }
  }

  function AllDataOf(web: Web, url: string, scrapeType: string, soup: Option<Document>, now: nat): (r: Result<Extracted, Error>)
    ensures scrapeType != "products" ==> r == Success(General(GeneralOf(web, url, soup)))
    ensures scrapeType == "products" ==> match ProductDataOf(web, url, soup, now)
                                         case Success(d) => r == Success(Products(d))
                                         case Failure(e) => r == Failure(e)
  {
    if scrapeType == "products" then
      match ProductDataOf(web, url, soup, now)
      case Success(d) => Success(Products(d))
      case Failure(e) => Failure(e)
    else Success(General(GeneralOf(web, url, soup)))
  }

  /** The general record always carries the URL as a string, whatever the page held. */
  lemma GeneralRecordKeys(g: GeneralData)
    ensures var rec := g.Record();
            && rec.Keys == {"url", "meta_info", "headers", "main_content", "contact_info", "social_links", "images", "links"}
            && rec["url"] == JStr(g.url)
  {
  }

  // ---------------------------------------------------------------------------------------------
  // The scraper object

  class WebScraper {
    var url: string
    const scrapeType: string
    var soup: Option<Document>
    const web: Web

    constructor Init(url: string, scrapeType: string, web: Web, soup: Option<Document>)
      ensures this.url == url && this.scrapeType == scrapeType && this.web == web && this.soup == soup
    {
      this.url := url;
      this.scrapeType := scrapeType;
      this.web := web;
      this.soup := soup;
    }

    /** `WebScraper(url, scrape_type)`: fetches the page; raises what `get_soup` lets through. */
    static method Open(url: string, scrapeType: string, web: Web) returns (r: Result<WebScraper, Error>)
      ensures r.Failure? <==> GetSoup(web, url).Failure?
      ensures r.Failure? ==> r.error == GetSoup(web, url).error
      ensures r.Success? ==> fresh(r.value) && r.value.url == url && r.value.scrapeType == scrapeType
                             && r.value.web == web && r.value.soup == GetSoup(web, url).value
    {
      var page := GetSoup(web, url);
      if page.Failure? {
        return Failure(page.error);
      }
      var scraper := new WebScraper.Init(url, scrapeType, web, page.value);
      return Success(scraper);
    }

    /** `_extract_specifications` */
    method ExtractSpecifications(scope: seq<Element>, selector: Option<string>) returns (specs: map<string, string>)
      ensures specs == Specifications(web, scope, selector)
    {
      specs := map[];
      var items := SelectAll(web, scope, OrDefault(selector, SpecificationsSelector));
      ghost var entries := SpecEntries(items);
      for i := 0 to |items|
        invariant specs == Build(entries[..i])
      {
        var text := items[i].text;
        PrefixSnoc(entries, i);
        BuildSnoc(entries[..i], entries[i]);
        if ':' in text {
          var (key, value) := SplitOnce(text, ':');
          specs := specs[Strip(key) := Strip(value)];
        }
      }
      PrefixAll(entries);
    }

    /** `extract_product_data` */
    method ExtractProductData(now: nat) returns (r: Result<ProductData, Error>)
      ensures r == ProductDataOf(web, url, soup, now)
    {
      if soup.None? {
        return Success(NoDocument);
      }
      var doc := soup.value;
      var site := DetectSite(url);
      if site.Some? && site.value in ProductSelectors {
        r := ExtractSiteProduct(doc, ProductSelectors[site.value], now);
      } else {
        var data := ExtractGenericProducts(doc, now);
        r := Success(data);
      }
    }

    /** The site path of `extract_product_data`. */
    method ExtractSiteProduct(doc: Document, selectors: Profile, now: nat) returns (r: Result<ProductData, Error>)
      ensures r == SiteData(url, now, SiteCandidate(web, url, doc, selectors))
    {
      var missing := FirstMissing(selectors, ProfileKeys);
      if missing.Some? {
        return Failure(KeyError(missing.value));
      }
      assert "specifications" == ProfileKeys[7];
      var specs := ExtractSpecifications(doc.elements, Some(selectors["specifications"]));
      var p := SiteProduct(web, url, doc, selectors, specs);
      return Success(Listing(url, now, if Accepted(p) then [p] else []));
    }

    /** The candidate the generic path builds from one product element. */
    method ExtractCandidate(e: Element) returns (p: Product)
      ensures p == GenericCandidate(web, url, e)
    {
      var specs := ExtractSpecifications(e.inner, None);
      p := GenericProduct(web, url, e, specs);
    }

    /** The generic path of `extract_product_data`: one candidate per product element, kept when
        accepted. */
    method ExtractGenericProducts(doc: Document, now: nat) returns (data: ProductData)
      ensures data == Listing(url, now, KeepAccepted(GenericCandidates(web, url, ProductElements(doc))))
    {
      var candidates := ProductElements(doc);
      ghost var cands := GenericCandidates(web, url, candidates);
      var products: seq<Product> := [];
      for i := 0 to |candidates|
        invariant products == KeepAccepted(cands[..i])
      {
        PrefixSnoc(cands, i);
        KeepAcceptedSnoc(cands[..i], cands[i]);
        var p := ExtractCandidate(candidates[i]);
        if Accepted(p) {
          products := products + [p];
        }
      }
      PrefixAll(cands);
      return Listing(url, now, products);
    }

    /** `extract_meta_info` */
    method ExtractMetaInfo() returns (meta: map<string, string>)
      ensures meta == MetaInfo(soup)
    {
      meta := map[];
      if soup.Some? {
        var metas := MetaTags(soup.value);
        ghost var entries := MetaEntries(metas);
        for i := 0 to |metas|
          invariant meta == Build(entries[..i])
        {
          var tag := metas[i];
          if "name" in tag.attrs {
            meta := meta[tag.attrs["name"] := Attr(tag, "content", "")];
          } else if "property" in tag.attrs {
            meta := meta[tag.attrs["property"] := Attr(tag, "content", "")];
          }
          PrefixSnoc(entries, i);
          BuildSnoc(entries[..i], entries[i]);
        }
        PrefixAll(entries);
      }
    }

    /** `extract_headers` */
    method ExtractHeaders() returns (headers: map<string, seq<string>>)
      ensures headers == Headers(soup)
    {
      headers := map[];
      if soup.Some? {
        var doc := soup.value;
        for i := 0 to |HeaderTags|
          invariant headers == map t | t in HeaderTags[..i] :: Texts(FindAllTag(doc.elements, t))
        {
          var tag := HeaderTags[i];
          headers := headers[tag := Texts(FindAllTag(doc.elements, tag))];
          PrefixSnoc(HeaderTags, i);
        }
        PrefixAll(HeaderTags);
      }
    }

    /** `extract_social_links` */
    method ExtractSocialLinks() returns (social: map<string, seq<string>>)
      ensures social == SocialLinks(soup)
    {
      social := map[];
      if soup.Some? {
        var doc := soup.value;
        for i := 0 to |Platforms|
          invariant social == map p | p in Platforms[..i] && PlatformLinks(doc, p) != [] :: PlatformLinks(doc, p)
        {
          var platform := Platforms[i];
          var links := Filter(doc.elements, PlatformAnchor(platform));
          if links != [] {
            social := social[platform := PlatformLinks(doc, platform)];
          }
          PrefixSnoc(Platforms, i);
        }
        PrefixAll(Platforms);
      }
    }

    /** `extract_images` */
    method ExtractImages() returns (images: seq<string>)
      ensures images == Images(web, url, soup)
    {
      images := [];
      if soup.Some? {
        var doc := soup.value;
        var imgs := FindAllTag(doc.elements, "img");
        for i := 0 to |imgs|
          invariant images == Resolved(web, url, Sourced(imgs[..i]), "src")
        {
          var img := imgs[i];
          ResolvedSourcedSnoc(web, url, imgs[..i], img);
          PrefixSnoc(imgs, i);
          if "src" in img.attrs {
            images := images + [web.urljoin(url, img.attrs["src"])];
          }
        }
        PrefixAll(imgs);
      }
    }

    /** `extract_links` */
    method ExtractLinks() returns (links: seq<string>)
      ensures links == Links(web, url, soup)
    {
      links := [];
      if soup.Some? {
        var anchors := Anchors(soup.value);
        for i := 0 to |anchors|
          invariant links == Resolved(web, url, anchors[..i], "href")
        {
          links := links + [web.urljoin(url, anchors[i].attrs["href"])];
        }
        PrefixAll(anchors);
      }
    }

    /** `extract_all_data` */
    method ExtractAllData(now: nat) returns (r: Result<Extracted, Error>)
      ensures r == AllDataOf(web, url, scrapeType, soup, now)
    {
      if scrapeType == "products" {
        var data := ExtractProductData(now);
        match data {
          case Success(d) => r := Success(Products(d));
          case Failure(e) => r := Failure(e);
        }
        return;
      }
      var meta := ExtractMetaInfo();
      var headers := ExtractHeaders();
      var social := ExtractSocialLinks();
      var images := ExtractImages();
      var links := ExtractLinks();
      r := Success(General(GeneralData(url, meta, headers, MainContent(soup), ContactInfo(soup), social, images, links)));
    }

    /** `track_price`: re-targets the scraper at `productUrl`, fetches it and reports. */
    method TrackPrice(productUrl: string, target: real, now: nat) returns (r: Result<PriceReport, Error>)
      modifies this
      ensures r == TrackPriceOf(web, productUrl, target, now)
      ensures url == productUrl
      ensures soup == (if GetSoup(web, productUrl).Success? then GetSoup(web, productUrl).value else old(soup))
    {
      url := productUrl;
      var page := GetSoup(web, productUrl);
      if page.Failure? {
        return Failure(page.error);
      }
      soup := page.value;
      var data := ExtractProductData(now);
      r := Report(data, target);
    }

    /** One pass of the loop of `compare_prices`: point the scraper at `u`, fetch it and extract its
        product data. */
    method CompareOne(u: string, now: nat) returns (step: Result<Option<Option<real>>, Error>)
      modifies this
      ensures step == CompareSteps(web, now)(u)
      ensures url == u
      ensures GetSoup(web, u).Success? ==> soup == GetSoup(web, u).value
      ensures GetSoup(web, u).Failure? ==> soup == old(soup)
    {
      url := u;
      var page := GetSoup(web, url);
      if page.Failure? {
        return Failure(page.error);
      }
      soup := page.value;
      var data := ExtractProductData(now);
      match data {
        case Failure(e) => step := Failure(e);
        case Success(NoDocument) => step := Failure(KeyError("products"));
        case Success(Listing(_, _, products)) =>
          step := if products == [] then Success(None) else Success(Some(products[0].price));
      }
    }

    /** `compare_prices`: re-targets the scraper at each URL in turn. */
    method ComparePrices(urls: seq<string>, now: nat) returns (r: Result<map<string, Option<real>>, Error>)
      modifies this
      ensures r == Comparison(web, urls, now)
      ensures urls == [] ==> url == old(url) && soup == old(soup)
      ensures urls != [] && r.Success? ==> url == urls[|urls| - 1] && soup == GetSoup(web, urls[|urls| - 1]).value
      ensures r.Failure? ==> url in urls
      ensures r.Failure? ==> exists i :: 0 <= i < |urls| && StoppedAt(web, urls, now, i, url, soup, old(soup))
    {
      var comparison := map[];
      for i := 0 to |urls|
        invariant Collect(urls[..i], CompareSteps(web, now)) == Success(comparison)
        invariant i == 0 ==> url == old(url) && soup == old(soup)
        invariant i > 0 ==> url == urls[i - 1] && GetSoup(web, urls[i - 1]).Success? && soup == GetSoup(web, urls[i - 1]).value
      {
        var step := CompareOne(urls[i], now);
        CollectSnoc(urls, CompareSteps(web, now), i);
        match step {
          case Failure(e) =>
            CollectFailureSticks(urls, CompareSteps(web, now), i + 1);
            FirstRaiseAfterPrefix(urls, CompareSteps(web, now), i);
            assert StoppedAt(web, urls, now, i, url, soup, old(soup));
            return Failure(e);
          case Success(None) =>
          case Success(Some(price)) =>
            comparison := comparison[urls[i] := price];
        }
      }
      PrefixAll(urls);
      return Success(comparison);
    }
  }
}
