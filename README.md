# Web scraper: extraction engine, store and request handler

This project models the core of a small Flask web scraper and proves properties of the model.
The core has three parts:

- **`scraper.py` (`WebScraper`)** fetches a page and extracts one of two records:
  - in *general* mode, a record of the page's meta tags, `h1`–`h6` texts, main text, e-mail
    addresses and phone numbers, social-media links, images and links;
  - in *products* mode, a product listing. Listings go through a site-specific CSS selector
    profile (amazon, ebay, daraz), or otherwise through a generic scan of elements whose class
    mentions `product`, `item` or `listing`. The price, currency, rating, review count and
    specifications are normalised from the matched text. A candidate is kept only when it has a
    title and a non-zero price.

  It also re-targets itself to track a price against a target, and compares prices across URLs.
- **`database.py` (`Database`)** is an SQLite store.
  - Its `scraped_data` table holds one row per URL, unique. Nine structured columns hold JSON text.
  - Its append-only `scrape_history` table logs attempts.
  - Constructing the store drops and recreates both tables.
- **`app.py` (`index`)** is the single route. A POST with a valid URL scrapes the URL in general
  mode, updates or inserts its row, and logs exactly one attempt. Every request then lists the
  stored rows, most recently updated first.

The modules follow that structure:

- `Wrappers`, `Text`, `Dicts` and `JsonData` hold the value vocabulary: `Option`/`Result`,
  exceptions, Python string operations, dict building by assignment, and JSON values.
- `Html` holds the parsed page and the three library services: fetch-and-parse, CSS matching and
  `urljoin`. They are uninterpreted function values.
- `Normalise` and `Patterns` hold the pure string normalisers and the two regular expressions of
  the contact extractor, written as `re.findall` scans.
- `Scraper` holds the extractors and the `WebScraper` class.
- `Store` holds the `Database` class and its specification functions.
- `App` holds the request handler.

Where the source builds a dict or list in a loop, the model is a `method` with a loop. It is
proved equal to a specification function, and lemmas state that function's properties.

Some behaviour one might expect differs from what the code does. The model follows the code:

- `"$1,234.56"` gives no price at all. Stripping leaves `1,234.56`, the comma becomes a second dot,
  and `float` refuses the text. For the same reason a Daraz-style `"Rs. 299"` parses as `0.299`,
  because the dot of `Rs.` is kept (`Normalise.PriceAfterRupeePrefix`).
- E-mail addresses and phone numbers are listed as often as they occur; they are not deduplicated
  (`Patterns.FindAllKeepsDuplicates`).
- Links are plain resolved URLs, not pairs of URL and text.
- The amazon and ebay profiles lack `image_url`. A products-mode scrape of such a URL whose page
  could be fetched raises `KeyError('image_url')` instead of returning a product. Without a page
  the result is `{}`.

## Model

| member | source | states |
|---|---|---|
| Scraper.DetectSite | scraper.py:69-79 | a detected site always has a selector profile, so the site path is taken exactly when a site name occurs in the URL |
| Scraper.FirstContained | scraper.py:70-77 | the site chosen is the first name in test order that occurs in the URL; none is chosen exactly when no name occurs |
| Scraper.AmazonProfileMissesImageUrl | scraper.py:16-23 | the first key the site path reads that the amazon profile lacks is `image_url` |
| Scraper.EbayProfileMissesImageUrl | scraper.py:24-30 | the first key the site path reads that the ebay profile lacks is `image_url` |
| Scraper.DarazProfileComplete | scraper.py:31-40 | the daraz profile has every key the site path reads |
| Scraper.FirstMissing | scraper.py:82-90 | the key whose lookup raises is the first missing one in reading order; nothing raises exactly when every key is present |
| Scraper.KnownSitesRaiseOnImageUrl | scraper.py:79-90 | an amazon or ebay URL with a page always raises `KeyError('image_url')` and never yields product data |
| Scraper.DarazYieldsListing | scraper.py:79-93 | a daraz URL with a page always yields product data |
| Scraper.ExtractText | scraper.py:114-120 | the result is the stripped text of the element `select_one` finds, and the fallback when it finds none |
| Scraper.ExtractTextIsFirstMatch | scraper.py:114-120 | the result is the stripped text of the first element in the scope that matches, and the fallback only when no element matches |
| Html.SelectOne | scraper.py:117 | `select_one` gives the earliest matching element, or nothing when no element matches |
| Html.SelectOneIsFirstOfAll | scraper.py:117 | `select_one` is the first element `select` lists, and nothing when `select` lists none |
| Html.GetSoup | scraper.py:50-56 | a page gives exactly the fetched document; a `RequestException` gives `None`; any other failure raises that failure |
| Normalise.KeepPriceCharsKeeps | scraper.py:127 | removing every character but digits, `.` and `,` keeps the count of dots, the count of commas, and whether there is a digit |
| Normalise.CommaToDotCounts | scraper.py:129 | after replacing commas with dots, the dot count is the old dot count plus the comma count |
| Normalise.ParsePriceDefined | scraper.py:122-132 | a price is found exactly when the text has a digit and at most one `.` or `,` in total, and it is never negative |
| Normalise.PriceOfDollarsAndCents | scraper.py:127-129 | `"$19.99"` gives 19.99 |
| Normalise.PriceWithDecimalComma | scraper.py:129 | `"1,5"` gives 1.5 |
| Normalise.PriceOfZero | scraper.py:129 | `"0.00"` gives the price 0.0, which the acceptance rule then rejects |
| Normalise.PriceWithThousandsSeparator | scraper.py:127-131 | `"$1,234.56"` gives no price |
| Normalise.RupeesWithThousandsSeparator | scraper.py:127-131 | `"Rs. 1,299"` gives no price, because the dot of the prefix counts as a second separator |
| Normalise.PriceAfterRupeePrefix | scraper.py:127-129 | `"Rs. 299"` gives 0.299, because the dot of the prefix survives the cleaning |
| Normalise.PriceWithoutDigits | scraper.py:125-131 | an empty text and a text without digits give no price |
| Scraper.PriceIn | scraper.py:122-124 | the extracted price, when there is one, is never negative |
| Normalise.DetectCurrency | scraper.py:134-138 | the currency is the token at the leftmost position where one of `$ € £ ¥ USD EUR GBP JPY` starts; there is none exactly when no position starts one |
| Normalise.DetectCurrencyVocabulary | scraper.py:137 | a detected currency is one of the eight tokens, and the empty text has none |
| Normalise.CurrencyOfDollarPrice | scraper.py:137-138 | `"$19.99"` gives `$` |
| Normalise.CurrencyOfEuroPrice | scraper.py:137-138 | `"19.99 EUR"` gives `EUR`, found after the digits |
| Normalise.CurrencyOfRupeePrice | scraper.py:137-138 | `"Rs. 299"` gives no currency |
| Normalise.RatingMatchIsDecimal | scraper.py:144 | the match is the leftmost greedy `\d+\.?\d*` slice: the first maximal digit run, then, when a dot follows, the dot and the maximal digit run after it; it has digits and at most one dot, so `float` accepts it |
| Normalise.RatingMatchExists | scraper.py:144 | there is no match exactly when the text has no digit |
| Normalise.ParseRatingDefined | scraper.py:140-146 | a rating is found exactly when the text has a digit, and it is never negative |
| Normalise.RatingOutOfFive | scraper.py:144 | `"4.5 out of 5 stars"` gives 4.5 |
| Normalise.RatingWithTrailingDot | scraper.py:144 | `"4. Good"` gives 4.0: the dot after the digits is part of the match |
| Normalise.RatingWithoutDigits | scraper.py:143-146 | a text without digits gives no rating |
| Normalise.ParseReviewsCountIsFirstRun | scraper.py:148-154 | the review count is the value of the first maximal digit run, and 0 without a digit |
| Normalise.ReviewsCountStopsAtComma | scraper.py:152-154 | `"1,234 ratings"` gives 1: the thousands separator ends the first digit run |
| Normalise.ReviewsCountInParentheses | scraper.py:152-154 | `"(87 reviews)"` gives 87 |
| Normalise.ReviewsCountWithoutDigits | scraper.py:152-154 | `"No reviews"` gives 0 |
| Normalise.SpecEntrySplitsAtFirstColon | scraper.py:175-177 | an item contributes exactly when its text has a colon; key and value are the stripped text before and after the first colon |
| Normalise.SpecEntryKeyHasNoColon | scraper.py:176 | a specification key never contains a colon |
| Normalise.SpecEntryOfKeyValue | scraper.py:175-177 | an item written `key: value`, with no colon in the key and no white space at either end of either part, gives back exactly that key and that value; colons inside the value stay in it |
| Text.SplitOnce | scraper.py:176 | `split(':', 1)`: the part before contains no separator, and the parts with the separator rebuild the text |
| Text.Strip | scraper.py:177 | `strip()` gives an infix with only white space around it and no white space at either end |
| Scraper.SpecificationsKeys | scraper.py:169-178 | a key is present exactly when some item has a colon and that key before its first colon |
| Scraper.SpecificationsLastWins | scraper.py:173-177 | a key holds the value given by the last item with that key |
| Dicts.BuildKeys | scraper.py:177 | a dict filled by assignment has exactly the keys some assignment names |
| Dicts.BuildLastWins | scraper.py:177 | the last assignment to a key decides its value |
| Scraper.WebScraper.ExtractSpecifications | scraper.py:169-178 | the loop builds exactly the specification dict |
| Scraper.AvailabilityIsFirstMatch | scraper.py:156-158 | the availability is the text of the first element the given selector matches, the default selector standing in for an absent or empty one, and `""` when none matches |
| Scraper.SellerIsFirstMatch | scraper.py:165-167 | the same for the seller, with the seller's default selector |
| Scraper.ImageIn | scraper.py:160-163 | an image URL is found exactly when the first element matching the selector has a `src`, and it is that `src` resolved against the page URL |
| Scraper.SiteProduct | scraper.py:81-91 | the site path's candidate never has a negative price |
| Scraper.GenericProduct | scraper.py:98-108 | the generic path's candidate for one element never has a negative price |
| Scraper.GenericCandidate | scraper.py:98-108 | the candidate built from one element, with the specifications found inside it, never has a negative price |
| Scraper.GenericCandidates | scraper.py:97-108 | one candidate per matched element, in document order, none with a negative price |
| Scraper.KeepAccepted | scraper.py:109-110 | every kept candidate has a title and a non-zero price, and a price above zero when no candidate's price is negative |
| Scraper.KeepAcceptedMembers | scraper.py:109-110 | every kept candidate is one of the candidates, and every accepted candidate is kept |
| Scraper.KeepAcceptedSnoc | scraper.py:97-110 | candidates are kept one by one in order: one more candidate is appended exactly when it is accepted |
| Scraper.GenericProducts | scraper.py:96-110 | the generic path keeps at most one product per matched element, each with a title and a price above zero; each kept product is one of the candidates, and every accepted candidate is kept |
| Scraper.SiteCandidate | scraper.py:79-91 | the site path raises `KeyError` for the first profile key it lacks, and otherwise builds a candidate whose price is never negative |
| Scraper.SiteData | scraper.py:81-93 | the site path raises the candidate's exception; otherwise the listing has the URL and the time, and holds the candidate exactly when it is accepted |
| Scraper.GenericData | scraper.py:94-110 | the generic path never raises; it keeps at most one accepted product per product element, each one of the candidates, and every accepted candidate |
| Scraper.ProductDataOf | scraper.py:58-112 | no page gives `{}`; otherwise the record has the URL and the time, and every product has a title and a price above zero; the site path raises the candidate's exception or holds the candidate exactly when it is accepted; the generic path never raises and holds the accepted candidates of the product elements |
| Scraper.WebScraper.ExtractSiteProduct | scraper.py:79-93 | the site path returns what its specification gives |
| Scraper.WebScraper.ExtractCandidate | scraper.py:98-108 | one element's candidate is the one the specification builds |
| Scraper.WebScraper.ExtractGenericProducts | scraper.py:94-110 | the loop appends exactly the accepted candidates, in order |
| Scraper.WebScraper.ExtractProductData | scraper.py:58-112 | the method returns what the specification gives |
| Scraper.ReportOutcome | scraper.py:202-208 | an empty listing is reported as not extracted, and only an empty one; otherwise a drop is reported exactly when the first product's price is at most the target, and either message carries that product's price and title; `{}` raises `KeyError('products')`; an exception is passed on |
| Scraper.TrackPriceOutcome | scraper.py:197-208 | the same for the page fetched for the URL; a failed fetch raises `KeyError('products')`, and a crash while fetching raises that crash |
| Scraper.WebScraper.TrackPrice | scraper.py:197-208 | the report is that of the specification, `url` becomes the product URL, and `soup` becomes its page |
| Scraper.CompareStep | scraper.py:215-218 | one URL adds nothing when its listing is empty, and otherwise the first product's price, which is then positive; a failed fetch raises `KeyError('products')`, and a crash or an extraction exception is passed on |
| Scraper.Collect | scraper.py:212-219 | the map built URL by URL holds exactly the URLs whose step gives a price, each with that price; it succeeds exactly when no step raises, and an exception is that of the first URL whose step raises |
| Scraper.CollectFailureSticks | scraper.py:213-218 | once one URL raises, the whole comparison raises that exception |
| Scraper.Comparison | scraper.py:210-219 | the comparison maps exactly the given URLs whose first product has a price, each to that price, which is positive; it succeeds exactly when no URL raises, and otherwise raises the exception of the first URL that raises |
| Scraper.WebScraper.CompareOne | scraper.py:214-218 | one pass points the scraper at the URL, keeps its page when it could be fetched, and gives that URL's step |
| Scraper.WebScraper.ComparePrices | scraper.py:210-219 | the loop builds exactly the comparison and leaves the scraper on the last URL; when it raises, the scraper points at the first URL whose step raised and holds that URL's page if it was fetched, or else the page it held before |
| Scraper.MetaInfoKeys | scraper.py:221-230 | a key is present exactly when some meta tag is filed under it, `name` taking precedence over `property` |
| Scraper.MetaInfoLastWins | scraper.py:225-229 | a key holds the `content` of the last tag filed under it, or `''` |
| Scraper.WebScraper.ExtractMetaInfo | scraper.py:221-230 | the loop builds exactly the meta dict |
| Scraper.MainContentTrimmed | scraper.py:240-244 | without a page the main content is `""`; with one it neither starts nor ends with whitespace, is no longer than `get_text()`, and is empty exactly when `get_text()` is all whitespace |
| Html.JoinStrippedOfConcat | scraper.py:243 | `get_text(strip=True)` is no longer than `get_text()` and is empty exactly when `get_text()` is all whitespace |
| Scraper.HeadersShape | scraper.py:232-238 | with a page the keys are exactly `h1`–`h6`, each with its tags' texts in document order; without one the map is empty |
| Scraper.WebScraper.ExtractHeaders | scraper.py:232-238 | the loop builds exactly the header map |
| Scraper.ContactInfo | scraper.py:246-258 | `emails` and `phones` are keys only when their pattern finds something, and then hold every match in order |
| Patterns.EmailRunEnd | scraper.py:251 | the greedy run of `[\w\.-]` characters ends at the first character outside the class |
| Patterns.PhoneTail | scraper.py:255 | the greedy `[\d -]{8,12}\d` tail is 9 to 13 characters of digits, spaces and dashes that end in a digit; it is the longest that fits, and there is none exactly when no length from 8 to 12 fits |
| Patterns.FindAllFromMatches | scraper.py:251-255 | every string `findall` returns has the pattern's shape and occurs in the text |
| Patterns.FindAllFromLeftmost | scraper.py:251-255 | `findall` misses no match: with no match from a position on it lists nothing, and otherwise its first item is the match at the leftmost position that starts one, after which it resumes where that match ends |
| Patterns.FindAllKeepsDuplicates | scraper.py:251-253 | matches are not deduplicated: `"a@b a@b"` gives two e-mails |
| Scraper.ContactInfoMatches | scraper.py:246-258 | every listed e-mail and phone number has its pattern's shape and occurs in the page text |
| Scraper.PlatformLinks | scraper.py:266-268 | every href listed for a platform mentions it, ignoring ASCII case |
| Scraper.PlatformLinksSnoc | scraper.py:266-268 | a platform's hrefs are taken tag by tag in document order: none for a page without tags, and one more tag adds its `href` exactly when it is an `<a>` whose `href` mentions the platform; nothing is deduplicated |
| Scraper.SocialLinksOfPage | scraper.py:263-268 | a platform is a key exactly when it is one of the five and some `<a>` on the page has an `href` that mentions it, and its entry is that platform's list of hrefs |
| Scraper.SocialLinksKeepDuplicates | scraper.py:266-268 | two equal links to facebook are both listed |
| Scraper.SocialLinksMention | scraper.py:260-269 | only the five platforms are keys, each with a non-empty list of hrefs that mention it, and every platform with a link is a key |
| Scraper.WebScraper.ExtractSocialLinks | scraper.py:260-269 | the loop builds exactly the social-link map |
| Scraper.ResolvedSourcedSnoc | scraper.py:275-277 | one more image adds its resolved `src` exactly when it has one |
| Scraper.WebScraper.ExtractImages | scraper.py:271-278 | the loop lists exactly the resolved `src` of every image that has one, in order |
| Scraper.Anchors | scraper.py:284 | the anchors are exactly the page's `<a>` tags with an `href`: each listed one is such a tag of the page, and each such tag is listed |
| Scraper.AnchorsSnoc | scraper.py:284 | the anchors are taken in document order: none for a page without tags, and one more tag is appended exactly when it is an `<a>` with an `href` |
| Scraper.LinksSnoc | scraper.py:280-286 | the links are built in document order: none for a page without tags, and one more tag adds its resolved `href` exactly when it is an `<a>` with an `href` |
| Scraper.WebScraper.ExtractLinks | scraper.py:280-286 | the loop lists exactly the resolved `href` of every such tag, in order |
| Scraper.GeneralOf | scraper.py:186-195 | the general record carries the URL; without a page every other field is empty |
| Scraper.GeneralRecordKeys | scraper.py:186-195 | the general record has exactly its eight keys, with the URL as a string |
| Scraper.AllDataOf | scraper.py:180-195 | any mode other than `products` gives the general record; `products` gives the product data or its exception |
| Scraper.WebScraper.ExtractAllData | scraper.py:180-195 | the method returns what the specification gives |
| Scraper.WebScraper.Open | scraper.py:10-13 | construction raises exactly what fetching lets through, and otherwise holds the URL, the mode and the page |
| Store.Database.constructor | database.py:10-13 | a new store has no rows and no history |
| Store.Database.LogScrapeAttempt | database.py:47-54 | one history entry with the given URL, status and message is appended, and the data table is untouched |
| Store.Default | database.py:69-77 | a default column value is never `null` |
| Store.Defaults | database.py:69-77 | `meta_info`, `headers` and `contact_info` default to `{}`, the six other columns to `[]` |
| Store.Cells | database.py:67-80 | an insert or an update binds all nine structured columns |
| Store.InsertCheck | database.py:56-81 | a missing URL raises `KeyError`, a null or duplicate URL an `IntegrityError`, any other non-text URL an `InterfaceError`; only a new string URL is accepted |
| Store.Database.InsertData | database.py:56-81 | an accepted URL adds one row whose two timestamps are equal; a refused one raises that error and changes nothing |
| Store.UpdateWhere | database.py:87-99 | the row of the URL gets the new columns and time; every other row stays |
| Store.UpdateKeepsIdentity | database.py:87-99 | an update keeps every id, URL and scrape date, leaves other URLs' rows alone, and changes nothing for an absent URL |
| Store.UpdateThenLookup | database.py:83-121 | after an update of a stored URL, its lookup gives the new columns and time |
| Store.Database.UpdateData | database.py:83-113 | the table becomes the update of the old table; the history is untouched |
| Store.Lookup | database.py:115-121 | the row found has the URL; none is found exactly when no row has it |
| Store.LookupFinds | database.py:117-120 | with unique URLs the lookup finds that URL's row |
| Store.Database.FetchData | database.py:115-121 | the decoded row of the URL, `None` when absent, or the decoding error |
| Store.DecodeCellCases | database.py:133-141 | decoding inverts encoding; a null or empty column decodes to its default, never `None`; only non-JSON text raises |
| Store.DecodeColumns | database.py:130-144 | the decoded row has exactly the columns, each the decoding of its cell, and fails exactly when some cell does not decode |
| Store.DeserializeWritten | database.py:67-80 | a written row decodes to the record's values, with defaults for missing keys |
| Store.InsertThenFetch | database.py:56-121 | after an insert, fetching the URL finds the new row and decodes it to the record's values |
| Store.InsertByRecency | database.py:125 | insertion into the listing adds exactly that row |
| Store.SortByRecency | database.py:125 | the listing holds exactly the stored rows |
| Store.SortByRecencySorted | database.py:125 | the listing is ordered by `last_updated`, most recent first, and is a permutation of the rows |
| Store.DeserializeAll | database.py:126 | a listing that decodes has one decoded entry per row, in order |
| Store.DeserializeAllFailureSticks | database.py:126 | once one row fails to decode, the whole listing raises that error |
| Store.Database.FetchAllData | database.py:123-126 | the result is the decoding of the sorted rows |
| App.Outcome.Status | app.py:28-36 | the logged status is `inserted`, `updated` or `error` |
| App.Outcome.ErrorMessage | app.py:36 | a message is logged exactly when the attempt raised |
| App.ScrapeRecord | app.py:23-24 | with `urljoin` total, the general scrape raises exactly when fetching crashes, and its record carries the URL as a string |
| App.ScrapeGeneral | app.py:23-24 | the method returns what the specification gives |
| App.UpsertOutcome | app.py:26-33 | an absent URL is inserted, a stored URL whose row decodes is updated, and any other stored URL raises the decoding error |
| App.Upsert | app.py:26-33 | the outcome is that of the specification; an insert appends the new row, an update rewrites the URL's row, an error changes nothing, and the history is untouched |
| App.PostFlash | app.py:29-37 | an error is flashed as `danger`, an insert or update as `success` |
| App.PostOutcome | app.py:22-37 | with `urljoin` total, an insert happens exactly when the page could be fetched and the URL is absent; an update needs a stored URL; an error comes from a crashed fetch or an undecodable stored row |
| App.StoredUrlIsUpdated | app.py:26-28 | with `urljoin` total, for a stored URL and a fetched page the row is updated exactly when it decodes, and the attempt is an error exactly when it does not |
| App.HandlePost | app.py:22-37 | exactly one attempt is logged with the outcome's status and message; the row is inserted, updated or left alone accordingly |
| App.FreshStorePost | app.py:13-33 | on a wiped store a POST is never an update; a failed fetch inserts the empty general record |
| App.Index | app.py:13-41 | the store starts empty; a GET or an invalid URL writes nothing; a valid URL writes one attempt that is never `updated` and at most one row; the listing is the store's rows |

## Left out

- Networking, HTML parsing and CSS matching: `requests.get`, BeautifulSoup with lxml, and the
  selector engine are uninterpreted functions carried by `Html.Web`. A page is the sequence of its
  tags, each with its stripped text and its descendants, and the sequence of its text nodes, from
  which `get_text()` and `get_text(strip=True)` are built. `Web.matches` tests an element by
  itself and its descendants only. A selector with a descendant combinator, such as
  `.specifications li` or `#availability span`, can depend on the element's ancestors in the
  source. In the model, two equal elements match alike wherever they sit. No proved property
  depends on this.
- `urljoin` is uninterpreted (it is reference resolution, section 5.2 of RFC 3986) and total. Python's
  `urljoin` raises `ValueError("Invalid IPv6 URL")` for an `href` or `src` such as `http://[::1`.
  The scrape then raises, and the handler logs an error and writes no row. The model resolves
  every reference instead. Every contract over resolved URLs therefore assumes a total `urljoin`:
  `Scraper.ImageIn`, `Images`, `Links`, `LinksSnoc`, `ResolvedSourcedSnoc`, the product
  candidates and listings built from them, `GeneralOf`, and the methods proved equal to these.
  The lines below name the contracts whose claim that nothing raises fails in the source.
- Scraper.DarazYieldsListing: "a daraz URL with a page always yields product data" holds only
  under a total `urljoin`. The image `src` of `.gallery-preview-panel__image` is resolved, and a
  malformed one raises `ValueError`.
- Scraper.SiteData: the listing's image is resolved, so a malformed image `src` raises in the
  source.
- Scraper.GenericData: "never raises" holds only under a total `urljoin`. Each element's image
  `src` is resolved.
- Scraper.ProductDataOf: "the generic path never raises", and the site path's success, hold only
  under a total `urljoin`.
- Scraper.AllDataOf: "any mode other than `products` gives the general record" holds only under a
  total `urljoin`. Every image `src` and link `href` is resolved.
- App.ScrapeRecord: "raises exactly when fetching crashes" holds only under a total `urljoin`. A
  malformed `href` or `src` on a fetched page also raises in the source.
- App.PostOutcome: "an insert happens exactly when the page could be fetched and the URL is
  absent" holds only under a total `urljoin`. A malformed reference gives an error instead.
- App.StoredUrlIsUpdated: "updated exactly when the stored row decodes" holds only under a total
  `urljoin`. A malformed reference gives an error instead.
- Scraper.Collect: a URL's step is a function of the URL, because fetching is one function of the
  URL. A URL listed twice is assumed to give the same page both times; the source fetches it again.
- Scraper.Comparison: a URL listed twice is assumed to give the same page both times, as for
  `Scraper.Collect`.
- Scraper.WebScraper.ComparePrices: a URL listed twice is assumed to give the same page both
  times, as for `Scraper.Collect`.
- `Scraper.ExtractText`: the bare `except` that returns the default is not modelled, because the
  uninterpreted selector test cannot raise.
- Regular expressions: `\d` and `\w` are read as ASCII digits and word characters, and
  `re.IGNORECASE` as ASCII case folding. Python also accepts other Unicode digits and letters.
- Floating point: prices and ratings are exact decimals built from the digit string, with no
  rounding and no exponent syntax.
- Clocks: `datetime.now().isoformat()` is a natural-number parameter. Its order stands for the
  order of the ISO strings.
- Exception messages: `str(e)` is modelled by `Error.Message()`. Every `json.loads` failure is
  reported with the one fixed message `Expecting value`. Python gives several messages, such as
  `Extra data` or `Expecting property name enclosed in double quotes`, and appends a position.
- `Scraper.PriceReport`: the message `track_price` returns is a value holding the price and the
  title, not the f-string built from them. The message text and the float-to-string formatting are
  not modelled.
- `Store.Database.InsertData`: a URL that is a JSON value other than a string or `null` is
  reported as an `InterfaceError`. SQLite would store numbers and reals as text; no caller passes
  one.
- `Store.InsertCheck`: a URL that is a number or a boolean is refused with an `InterfaceError`,
  where SQLite would store it. No caller passes one.
- `Store.SortByRecency`: rows with equal `last_updated` keep their insertion order. SQLite leaves
  that order unspecified.
- JSON text: `json.dumps` is modelled as keeping the value itself (`Store.Encode`). The text format
  is not modelled. Text written by other programs is either empty, `NULL`, JSON, or text that does
  not decode.
- The product timestamp is a number rather than its ISO string.
- `Database.close`, the connection, the cursor, and `commit` are not modelled.
- Flask: routing, `render_template` and `flash` are reduced to the `App.Rendered` value they would
  show. `validators.url` is an uninterpreted predicate.
- `print` diagnostics (scraper.py:55) are left out.
- `python.py` is not part of this model: it is a demonstration script of a language library.
