/**
  The `POST /crawl` handler and `validateDomains`. The request body's
  `domains` field is either missing (any falsy value), a value that is not an
  array, or an array. Its entries are taken as strings.

  `validateDomains` maps every entry through `new URL(domain).toString()`,
  with `null` where the constructor throws, and keeps the truthy results
  (`filter(Boolean)`), so it drops the failures and any empty string. The
  URL constructor is not part of this model: it is the parameter `parse`.

  The handler answers 400 when `domains` is missing or not an array, and 400
  again when no entry validates. Otherwise it crawls. As written, it hands the
  crawler the RAW `domains` array rather than the validated one, so entries
  that failed validation are crawled too and the accepted ones are crawled in
  their unnormalised spelling. `RouteAsWritten` and `PostCrawlAsWritten`
  model that; `Route` and `PostCrawl` crawl the validated list.
 */
module CrawlRequest {
  import opened Wrappers
  import opened ProductClassifier
  import opened LinkExtraction
  import opened CrawlResults

  /** `new URL(domain).toString()`, or `None` where the constructor throws. */
  type DomainParser = string -> Option<string>

  /** The `domains` field of the request body. */
  datatype DomainsField = Missing | NotAnArray | ArrayOf(entries: seq<string>)

  const MissingDomainsError: string := "Please provide a valid list of domains."
  const NoValidDomainsError: string := "No valid domains provided."

  /** What the validation step keeps of one parse result: `filter(Boolean)` drops `null` and `""`. */
  function Kept(parsed: Option<string>): seq<string> {
    if parsed.Some? && parsed.value != "" then [parsed.value] else []
  }

  /** `validateDomains(domains)`. */
  function ValidateDomains(domains: seq<string>, parse: DomainParser): (r: seq<string>)
    ensures |r| <= |domains|
    ensures "" !in r
  {
    if domains == [] then []
    else ValidateDomains(domains[..|domains| - 1], parse) + Kept(parse(domains[|domains| - 1]))
  }

  /** A string is kept iff it is non-empty and the parser turns some entry into it. */
  lemma {:induction false} ValidateDomainsMembership(domains: seq<string>, parse: DomainParser, s: string)
    ensures s in ValidateDomains(domains, parse) <==>
      s != "" && exists i :: 0 <= i < |domains| && parse(domains[i]) == Some(s)
  {
    if domains != [] {
      var n := |domains| - 1;
      ValidateDomainsMembership(domains[..n], parse, s);
      assert forall i :: 0 <= i < n ==> domains[..n][i] == domains[i];
    }
  }

  /** Validation works entry by entry and keeps their order. */
  lemma {:induction false} ValidateDomainsConcat(a: seq<string>, b: seq<string>, parse: DomainParser)
    ensures ValidateDomains(a + b, parse) == ValidateDomains(a, parse) + ValidateDomains(b, parse)
  {
    if b != [] {
      var n := |b| - 1;
      ValidateDomainsConcat(a, b[..n], parse);
      assert (a + b)[..|a + b| - 1] == a + b[..n];
      assert (a + b)[|a + b| - 1] == b[n];
    } else {
      assert a + b == a;
    }
  }

  /** Every entry the parser accepts with a non-empty result is kept. */
  lemma {:induction false} ValidateDomainsKeepsAccepted(domains: seq<string>, parse: DomainParser)
    requires forall d :: d in domains ==> parse(d).Some? && parse(d).value != ""
    ensures |ValidateDomains(domains, parse)| == |domains|
  {
    if domains != [] {
      var n := |domains| - 1;
      assert forall d :: d in domains[..n] ==> d in domains;
      ValidateDomainsKeepsAccepted(domains[..n], parse);
    }
  }

  /** What the handler decides before crawling. */
  datatype Decision = Reject(error: string) | Crawl(seeds: seq<string>)

  /** The handler as written: it validates, but crawls the raw `domains`. */
  function RouteAsWritten(domains: DomainsField, parse: DomainParser): (r: Decision)
    ensures r.Reject? <==> !domains.ArrayOf? || ValidateDomains(domains.entries, parse) == []
    ensures r.Crawl? ==> r.seeds == domains.entries
  {
    match domains
    case Missing => Reject(MissingDomainsError)
    case NotAnArray => Reject(MissingDomainsError)
    case ArrayOf(entries) =>
      if ValidateDomains(entries, parse) == [] then Reject(NoValidDomainsError) else Crawl(entries)
  }

  /** The handler crawling the validated list: every seed is a URL the parser produced. */
  function Route(domains: DomainsField, parse: DomainParser): (r: Decision)
    ensures r.Reject? <==> !domains.ArrayOf? || ValidateDomains(domains.entries, parse) == []
    ensures r.Crawl? ==> r.seeds != [] && r.seeds == ValidateDomains(domains.entries, parse)
  {
    match domains
    case Missing => Reject(MissingDomainsError)
    case NotAnArray => Reject(MissingDomainsError)
    case ArrayOf(entries) =>
      var validated := ValidateDomains(entries, parse);
      if validated == [] then Reject(NoValidDomainsError) else Crawl(validated)
  }

  /**
    The two handlers reject the same requests with the same message: a
    missing or non-array field gets the first message, an array with no
    valid entry the second.
   */
  lemma RouteRejections(domains: DomainsField, parse: DomainParser)
    ensures Route(domains, parse).Reject? <==> RouteAsWritten(domains, parse).Reject?
    ensures Route(domains, parse).Reject? ==> Route(domains, parse) == RouteAsWritten(domains, parse)
    ensures !domains.ArrayOf? ==> Route(domains, parse) == Reject(MissingDomainsError)
    ensures domains.ArrayOf? && Route(domains, parse).Reject? ==> Route(domains, parse) == Reject(NoValidDomainsError)
  {
  }

  /** Every seed `Route` crawls is the parser's output for some entry of the request. */
  lemma RouteSeedsAreValidated(domains: DomainsField, parse: DomainParser, s: string)
    requires Route(domains, parse).Crawl? && s in Route(domains, parse).seeds
    ensures domains.ArrayOf? && exists i :: 0 <= i < |domains.entries| && parse(domains.entries[i]) == Some(s)
  {
    ValidateDomainsMembership(domains.entries, parse, s);
  }

  /** A parser accepting only `https://shop.test`, which it spells with a trailing `/`. */
  function ShopOnlyParser(d: string): Option<string> {
    if d == "https://shop.test" then Some("https://shop.test/") else None
  }

  /**
    As written, one valid entry lets every invalid one through: the crawler
    is handed `"not a url"`, which validation rejected, and the valid entry in
    its unnormalised spelling. `Route` hands it only `https://shop.test/`.
   */
  lemma RouteAsWrittenCrawlsRejectedEntry()
    ensures RouteAsWritten(ArrayOf(["https://shop.test", "not a url"]), ShopOnlyParser)
         == Crawl(["https://shop.test", "not a url"])
    ensures ShopOnlyParser("not a url") == None
    ensures Route(ArrayOf(["https://shop.test", "not a url"]), ShopOnlyParser)
         == Crawl(["https://shop.test/"])
  {
    var entries := ["https://shop.test", "not a url"];
    assert entries[..1] == ["https://shop.test"];
    assert entries[..1][..0] == [];
    assert ValidateDomains(entries, ShopOnlyParser) == ["https://shop.test/"];
  }

  /** The reply of `POST /crawl`. */
  datatype Reply = BadRequest(error: string) | Ok(results: Results)

  /**
    The reply once the handler has decided: 400 with its message, or the
    finalised results of `crawlWebsites` over the chosen seeds. `source` and
    `parse` stand for the browser and the URL constructor, as in
    `CrawlWebsites`.
   */
  method Respond(decision: Decision, source: PageSource, parse: UrlParser) returns (reply: Reply)
    ensures reply.BadRequest? <==> decision.Reject?
    ensures reply.BadRequest? ==> reply.error == decision.error
    ensures reply.Ok? ==> Finalised(reply.results)
    ensures reply.Ok? ==> forall k :: k in reply.results <==>
      k in decision.seeds && PageProducts(k, source(k), parse, IsProductUrl) != []
    ensures reply.Ok? ==> forall k, s :: k in reply.results ==>
      (s in reply.results[k].items <==> s in PageProducts(k, source(k), parse, IsProductUrl))
  {
    match decision {
      case Reject(error) =>
        reply := BadRequest(error);
      case Crawl(seeds) =>
        var results := CrawlWebsites(seeds, source, parse);
        reply := Ok(results);
    }
  }

  /**
    `POST /crawl` as written: the raw `domains` are crawled, so every key of
    the results is an entry of the request exactly as it was sent.
   */
  method PostCrawlAsWritten(domains: DomainsField, parseDomain: DomainParser, source: PageSource, parse: UrlParser)
    returns (reply: Reply)
    ensures reply.BadRequest? <==> RouteAsWritten(domains, parseDomain).Reject?
    ensures reply.BadRequest? ==> reply.error == RouteAsWritten(domains, parseDomain).error
    ensures reply.Ok? ==> domains.ArrayOf? && Finalised(reply.results)
    ensures reply.Ok? ==> forall k :: k in reply.results <==>
      k in domains.entries && PageProducts(k, source(k), parse, IsProductUrl) != []
    ensures reply.Ok? ==> forall k, s :: k in reply.results ==>
      (s in reply.results[k].items <==> s in PageProducts(k, source(k), parse, IsProductUrl))
  {
    reply := Respond(RouteAsWritten(domains, parseDomain), source, parse);
  }

  /**
    `POST /crawl` crawling the validated seeds: every key of the results is a
    non-empty URL the parser produced from an entry of the request.
   */
  method PostCrawl(domains: DomainsField, parseDomain: DomainParser, source: PageSource, parse: UrlParser)
    returns (reply: Reply)
    ensures reply.BadRequest? <==> Route(domains, parseDomain).Reject?
    ensures reply.BadRequest? ==> reply.error == Route(domains, parseDomain).error
    ensures reply.Ok? ==> domains.ArrayOf? && Finalised(reply.results)
    ensures reply.Ok? ==> forall k :: k in reply.results <==>
      k in ValidateDomains(domains.entries, parseDomain) && PageProducts(k, source(k), parse, IsProductUrl) != []
    ensures reply.Ok? ==> forall k, s :: k in reply.results ==>
      (s in reply.results[k].items <==> s in PageProducts(k, source(k), parse, IsProductUrl))
    ensures reply.Ok? ==> forall k :: k in reply.results ==> k != ""
  {
    reply := Respond(Route(domains, parseDomain), source, parse);
  }
}
