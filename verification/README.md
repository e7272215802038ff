# A verified model of the product-link crawler

This project models the core of `crawler.js`, a small web service. `POST /crawl` takes a list of seed
domains and validates them. It renders each seed page in a headless browser and collects the page's
anchors. It resolves each anchor against the page URL without its fragment and query. It keeps the
links that match one of five product-URL patterns. It answers with a mapping from page URL to the
product links found on that page.

The model has six modules:

- `Wrappers`: `Option`, which stands for a JavaScript value that may be `null`.
- `InsertionSet`: a JavaScript `Set`, modelled as a sequence without repetitions in insertion order.
  - `Add` is `set.add`.
  - `AddAll` adds a list in order.
  - `Dedup` is `Array.from(new Set(list))`.
- `ProductClassifier`: `isProductUrl`. Each regular expression is a literal plus a flag that says
  whether `[A-Z0-9]+` must follow it.
  - `pattern.test(u)` is an unanchored, ASCII case-insensitive search.
  - `.some` is a disjunction over the list.
- `LinkExtraction`:
  - the clean-up `href.split('#')[0].split('?')[0]`;
  - `normalizeUrl`;
  - `extractUrls`, written as an imperative loop that fills the set.
- `CrawlResults`: the `results` object of `crawlWebsites`, as the class `ProductResults`, with these
  methods:
  - `RecordPage`: the task's loop over the extracted links.
  - `RunTask`: the task, which records nothing when rendering throws.
  - `Finalize`: the `for...in` loop that turns every `Set` into an array.
  - The method `CrawlWebsites` queues and runs every task and then finalises.
  - Pure functions specify what the methods do:
    - `RecordLinks`: one page.
    - `AfterPage`: the closed form of `RecordLinks`.
    - `CrawlAll`: all pages.
  - The functions and lemmas about them take the URL test as a parameter `isProduct`. The methods use
    `isProductUrl` itself (`ClassifyLink`) and state their effect with `isProduct := IsProductUrl`.
- `CrawlRequest`: `validateDomains`, the two 400 checks of the `/crawl` handler, and the handler.
  `PostCrawlAsWritten` crawls the raw `domains` as line 159 does. `PostCrawl` crawls the validated list
  (see "## Findings"). Both reply through `Respond`.

The model has no browser, HTML parser or URL parser. Each one is a parameter:

- `source` gives, for a page URL, the `href` attributes of the page's anchors in document order.
  `None` means `page.goto` or `page.content` threw.
- `parse(relative, base)` is `new URL(relative, base).toString()`. `None` means the constructor threw.
- `parseDomain(domain)` is `new URL(domain).toString()`.

Tasks run one after another in queue order. `RecordLinksCommute` shows that tasks for different URLs
give the same results in either order.

The crawler visits only the queued seed pages.

Some details of the model, stated in the source's own terms:

- `normalizeUrl` catches the constructor's error and returns `null`. The `catch` around it in
  `extractUrls` therefore never runs, and `null` itself is added to the set
  (`RejectedHrefYieldsNull`).
- `isProductUrl(null)` tests the string `"null"`, which no pattern matches (`NullIsNeverProduct`).
- `filter(Boolean)` in `validateDomains` drops both `null` and `""`.
- `if (href)` skips a missing or empty `href` before the clean-up. A non-empty `href` can still clean to
  `""`, for example `#top`.

## Model

| member | source | states |
|---|---|---|
| InsertionSet.Add | crawler.js:50 | `set.add(x)` keeps the set free of repetitions, keeps the old elements as a prefix, holds `x` afterwards and grows by at most one element |
| InsertionSet.AddMembership | crawler.js:50 | after `set.add(x)`, the members are exactly the old members and `x` |
| InsertionSet.AddAll | crawler.js:45-55 | adding a list in order keeps the set free of repetitions and the old elements as a prefix, and adds at most the list's length |
| InsertionSet.AddAllMembership | crawler.js:45-55 | after adding a list, the members are exactly the old members and the list's elements |
| InsertionSet.AddAllSnoc | crawler.js:45-55 | adding a list and then one more element equals adding the extended list: the loop may be read one element at a time |
| InsertionSet.Dedup | crawler.js:43-57 | `Array.from(new Set(xs))` has no repetitions and is no longer than `xs` |
| InsertionSet.DedupMembership | crawler.js:43-57 | `Array.from(new Set(xs))` holds exactly the elements of `xs` |
| ProductClassifier.TestFrom | crawler.js:22 | no contract of its own: the regular-expression search from index `i`; its meaning is stated by `TestFromFindsMatch` |
| ProductClassifier.Test | crawler.js:22 | no contract of its own: `pattern.test(u)`; its meaning is stated by `TestIsSearch` |
| ProductClassifier.SomeMatches | crawler.js:22 | no contract of its own: `patterns.some(...)`; its meaning is stated by `SomeMatchesIsDisjunction` and `PatternOrderIrrelevant` |
| ProductClassifier.IsProductUrl | crawler.js:20-23 | no contract of its own: `isProductUrl(u)`; its meaning is stated by `IsProductUrlMeaning` and the lemmas below |
| ProductClassifier.TestFromFindsMatch | crawler.js:22 | the regular-expression scan from index `i` succeeds iff the pattern matches at some start index from `i` on |
| ProductClassifier.TestIsSearch | crawler.js:22 | `pattern.test(u)` is true iff the pattern matches somewhere in `u` |
| ProductClassifier.SomeMatchesIsDisjunction | crawler.js:22 | `patterns.some(p => p.test(u))` is true iff some pattern of the list matches `u` |
| ProductClassifier.IsProductUrlMeaning | crawler.js:20-23 | `isProductUrl(u)` is true iff at least one of the five patterns of line 21 matches `u` |
| ProductClassifier.ClassifyLink | crawler.js:85 | `isProductUrl(link)` for an extracted link is true iff the link is not `null` and its string is a product URL |
| ProductClassifier.PatternOrderIrrelevant | crawler.js:21-22 | any rearrangement of the five patterns gives the same answer for every URL |
| ProductClassifier.LiteralAtIgnoresCase | crawler.js:21 | whether a literal occurs at an index does not depend on ASCII case (the `i` flag) |
| ProductClassifier.MatchesAtIgnoresCase | crawler.js:21 | whether a pattern matches at an index does not depend on ASCII case, including `[A-Z0-9]` |
| ProductClassifier.IsProductUrlIgnoresCase | crawler.js:20-23 | two URLs that differ only in ASCII case are classified alike |
| ProductClassifier.CaseFoldingKeepsClass | crawler.js:20-23 | lower-casing or upper-casing a URL never changes its classification |
| ProductClassifier.MatchMakesProduct | crawler.js:20-23 | a match of any of the five patterns, anywhere, makes the URL a product |
| ProductClassifier.SegmentMakesProduct | crawler.js:21 | `/product/`, `/item/` or `/p/` anywhere, in any case, makes the URL a product |
| ProductClassifier.DpWithIdMakesProduct | crawler.js:21 | `/dp/` followed by an ASCII letter or digit makes the URL a product |
| ProductClassifier.NoCandidateSlashNeverProduct | crawler.js:21 | a URL in which no `/` is followed by `p`, `i`, `d` or `g` (either case) is not a product |
| ProductClassifier.NoSlashNeverProduct | crawler.js:21 | a URL without `/` is not a product |
| ProductClassifier.NullIsNeverProduct | crawler.js:20-23 | `isProductUrl(null)`, which tests the string `"null"`, is false |
| ProductClassifier.GpProductImpliesProduct | crawler.js:21 | every match of `/gp/product/[A-Z0-9]+` contains a match of `/product/` |
| ProductClassifier.GpProductPatternRedundant | crawler.js:21-22 | dropping the fifth pattern never changes the answer |
| ProductClassifier.BareDpSegmentIsNotProduct | crawler.js:21 | `/dp/` alone is not a product: no identifier follows, and it contains no `/p/` |
| ProductClassifier.ProductSegmentExample | crawler.js:21 | `https://example.com/product/123` is a product |
| ProductClassifier.ShortSegmentExample | crawler.js:21 | `https://example.com/p/abc` is a product |
| ProductClassifier.DpIdentifierExample | crawler.js:21 | `https://example.com/dp/B000123456` is a product |
| ProductClassifier.NonProductExampleUrl | crawler.js:21 | `https://example.com/about` is not a product |
| LinkExtraction.BeforeFirst | crawler.js:49 | `s.split(c)[0]` is a prefix of `s` without `c` that is either all of `s` or stops at a `c` |
| LinkExtraction.CleanHref | crawler.js:49 | the cleaned `href` is a prefix of `href` without `#` and `?`, and it is all of `href` or stops at a `#` or `?` |
| LinkExtraction.CleanHrefUnique | crawler.js:49 | only one prefix meets that description, so the cleaned `href` is the longest prefix free of `#` and `?` |
| LinkExtraction.CleanHrefIdempotent | crawler.js:49 | cleaning an already cleaned `href` changes nothing |
| LinkExtraction.NormalizeUrl | crawler.js:9-17 | no contract of its own: `normalizeUrl(base, relative)` is the URL constructor's result, or `null` where it throws; `RejectedHrefYieldsNull` states the consequence |
| LinkExtraction.Candidates | crawler.js:45-55 | no contract of its own: the values handed to `links.add`, in document order; their meaning is stated by `CandidatesMembership` |
| LinkExtraction.Extracted | crawler.js:41-58 | no contract of its own: the array `extractUrls` returns; `ExtractUrls` is proved equal to it |
| LinkExtraction.CandidatesMembership | crawler.js:45-55 | a value is added to the set iff some anchor with a non-empty `href` resolves, after cleaning, to that value (`null` included) |
| LinkExtraction.ExtractUrls | crawler.js:41-58 | the loop returns the candidates without repetitions, in order of first appearance, and holds exactly the candidates |
| LinkExtraction.RejectedHrefYieldsNull | crawler.js:9-17 | a non-empty `href` the URL constructor rejects puts `null` into the extracted links, because `normalizeUrl` returns `null` and the `catch` at line 51 never runs |
| CrawlResults.ProductLinks | crawler.js:83-90 | no contract of its own: the links the loop adds, in order; their meaning is stated by `ProductLinksMembership` |
| CrawlResults.RecordLink | crawler.js:84-89 | no contract of its own: one iteration of the loop; `AfterPageAdd` and `RecordLinksClosedForm` state its effect |
| CrawlResults.RecordLinks | crawler.js:83-90 | no contract of its own: the whole loop; its effect is stated by `RecordLinksClosedForm` and `RecordLinksEffect` |
| CrawlResults.AfterPage | crawler.js:83-90 | no contract of its own: the closed form of the loop, which `RecordLinksClosedForm` proves equal to it |
| CrawlResults.TaskResult | crawler.js:72-94 | no contract of its own: the effect of one task; `TaskResultRecords` states what it keeps |
| CrawlResults.PageProducts | crawler.js:72-94 | no contract of its own: the product links one task finds; their meaning is stated by `PageProductsMembership` |
| CrawlResults.CrawlAll | crawler.js:96-102 | no contract of its own: all tasks in queue order; its outcome is stated by `CrawlAllOutcome` |
| CrawlResults.ProductLinksMembership | crawler.js:83-90 | a string is among a link list's product links iff the list holds it and the URL test accepts it |
| CrawlResults.AfterPageAdd | crawler.js:87-88 | creating `results[url]` if missing and adding one product link extends the page's product links by that link |
| CrawlResults.RecordLinksClosedForm | crawler.js:83-90 | the loop over a page's links leaves `results` unchanged when no link is a product, and otherwise sets `results[url]` to the old set with the product links added |
| CrawlResults.RecordLinksEffect | crawler.js:83-90 | the loop keeps every entry a non-empty set without repetitions and leaves every other key as it was; it creates `results[url]` only when a product link exists; the new members are the old ones plus exactly the product links, and the old set is a prefix of the new |
| CrawlResults.AfterPageCommute | crawler.js:87-88 | updating the entries of two different URLs gives the same results in either order |
| CrawlResults.RecordLinksCommute | crawler.js:72-94 | tasks for two different page URLs give the same results in either order |
| CrawlResults.PageProductsMembership | crawler.js:72-94 | a link is found on a page iff the page rendered, the link passes the URL test, and some non-empty `href` of the page resolves to it after cleaning |
| CrawlResults.TaskResultRecords | crawler.js:72-94 | one more task keeps every key a queued page with a product link, whose entry holds exactly that page's product links |
| CrawlResults.CrawlAllOutcome | crawler.js:96-102 | after all tasks, a URL is a key iff it was queued and its page has a product link, and its set holds exactly those links |
| CrawlResults.ProductResults.constructor | crawler.js:69 | `results` starts empty |
| CrawlResults.ProductResults.RecordPage | crawler.js:83-90 | the loop, which creates `results[url]` lazily, leaves `results` equal to `RecordLinks` of the old results, which keeps every entry a non-empty set |
| CrawlResults.ProductResults.RunTask | crawler.js:72-94 | the task records nothing when rendering throws, and otherwise records the product links among `extractUrls` of the page |
| CrawlResults.ProductResults.Finalize | crawler.js:105-108 | the keys stay the same, and each set becomes an array of the same elements in the same order, with no repetitions |
| CrawlResults.CrawlWebsites | crawler.js:62-116 | the returned object holds arrays without repetitions; a URL is a key iff it was queued and its page has a product link, and its array holds exactly that page's product links |
| CrawlRequest.ValidateDomains | crawler.js:134-144 | `validateDomains` returns no more entries than it is given, and none of them is empty |
| CrawlRequest.ValidateDomainsMembership | crawler.js:134-144 | a string is kept iff it is non-empty and the URL constructor turns some entry into it |
| CrawlRequest.ValidateDomainsConcat | crawler.js:134-144 | validation works entry by entry and keeps the entries' order |
| CrawlRequest.ValidateDomainsKeepsAccepted | crawler.js:134-144 | when every entry is accepted with a non-empty result, nothing is dropped |
| CrawlRequest.RouteAsWritten | crawler.js:146-159 | the handler as written answers 400 iff `domains` is missing, is not an array or has no valid entry; otherwise it crawls the raw `domains` |
| CrawlRequest.Route | crawler.js:146-159 | the corrected handler answers 400 in exactly the same cases; otherwise it crawls the non-empty validated list |
| CrawlRequest.RouteRejections | crawler.js:149-156 | both handlers reject the same requests with the same messages: the first for a missing or non-array `domains`, the second for an array without a valid entry |
| CrawlRequest.RouteSeedsAreValidated | crawler.js:153-159 | every seed the corrected handler crawls is the URL constructor's output for some entry of the request |
| CrawlRequest.RouteAsWrittenCrawlsRejectedEntry | crawler.js:153-159 | for `["https://shop.test", "not a url"]`, the handler as written crawls `"not a url"` although validation rejected it; the corrected handler crawls only `https://shop.test/` |
| CrawlRequest.Respond | crawler.js:158-160 | the reply is 400 with the decision's message exactly when the request was rejected; otherwise it is `crawlWebsites` of the chosen seeds, finalised, with a key iff a seed's page has a product link, holding exactly that page's product links |
| CrawlRequest.PostCrawlAsWritten | crawler.js:146-165 | `POST /crawl` as written: 400 with the right message exactly when `RouteAsWritten` rejects; otherwise the keys are exactly the raw entries whose pages have a product link, each holding exactly that page's product links |
| CrawlRequest.PostCrawl | crawler.js:146-165 | `POST /crawl` crawling the validated list (the corrected half of the finding at line 159): the same 400 answers; otherwise the keys are exactly the validated, non-empty seed URLs whose pages have a product link, each holding exactly that page's product links |

## Left out

- The Express server is not modelled: `app.listen`, `GET /`, JSON body parsing and status codes as numbers. A `domains` field is missing, not an array, or an array of strings. Non-string entries are not modelled.
- CrawlRequest.PostCrawl, CrawlRequest.PostCrawlAsWritten, CrawlRequest.Respond: the 500 answer is not modelled. It arises only when `crawlWebsites` throws, for example when the browser cluster cannot be launched, `cluster.idle()` or `cluster.close()` rejects, or the results file cannot be written. None of these is part of this model.
- puppeteer-cluster is not modelled: its browser, its concurrency of five and the completion order of tasks. Tasks run one after another in queue order. `RecordLinksCommute` covers reordering between different URLs. The insertion order inside one set is not claimed for other interleavings.
- Page rendering (`page.goto`, `page.content`) and cheerio's `$('a')` are given by the parameter `source`. It returns the anchors' `href` attributes, or `None` where rendering throws.
- The WHATWG URL parser (`new URL`) is the parameters `parse` and `parseDomain`. Its canonical form is not modelled.
- `fetchHtml` (axios) is not modelled: the crawl never calls it.
- `fs.writeFileSync` and `JSON.stringify` (lines 110-113) are not modelled, and neither is logging.
- The order of keys in the results object is not modelled: `results` is a map.
- No crawl frontier, visited set or depth limit is modelled, because `crawler.js` has none. Only the queued seed pages are visited.
- CrawlResults.CrawlAllOutcome, CrawlResults.TaskResultRecords, CrawlResults.CrawlWebsites: `source` is a function of the URL, so every visit of a URL renders the same page. A URL queued twice whose visits differ (one throws, or the links change between visits) is not modelled; there the real set is the union over both visits.
- Strings are sequences of Unicode characters, not UTF-16 code units, so lone surrogates cannot be represented. This changes nothing for the ASCII patterns or for the cuts at `#` and `?`.
- CrawlResults.CrawlWebsites: states which links each array holds and that it has no repetitions, not their order. The order is insertion order, as `ProductResults.RecordPage` and `RecordLinksClosedForm` state for one page.

## Findings

| source | as written | input that shows it | evidently intended | confidence | as-written member | corrected member |
|---|---|---|---|---|---|---|
| crawler.js:159 | `crawlWebsites(domains)` crawls the raw request array | `{"domains": ["https://shop.test", "not a url"]}`: `"not a url"` fails validation but is still queued, and `https://shop.test` is crawled unnormalised | crawl `validatedDomains`, the list that passed the check on line 154 | high (not executed) | CrawlRequest.RouteAsWrittenCrawlsRejectedEntry | CrawlRequest.Route |
