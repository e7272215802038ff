/**
  The per-page results of `crawlWebsites(domains)`. `results` is an object
  keyed by page URL. The task run for each queued URL extracts the page's
  links and, for each product link, creates `results[url]` as an empty `Set`
  if it is missing and adds the link to it. Once every task has finished,
  each `Set` is replaced in place by an array of its elements.

  The browser is not part of this model. A page is what the parameter `source`
  gives for its URL: the `href` attributes of its anchors, or `None` where
  `page.goto` or `page.content` throws. That error is caught inside the task,
  so such a page records nothing. Tasks run one after another, in queue order.

  The functions and lemmas that describe the results take the URL test as a
  parameter `isProduct`; the methods, which run the crawl, use `isProductUrl`
  itself (`ClassifyLink`) and state their effect with `isProduct :=
  IsProductUrl`. Nothing about the results depends on which patterns the test
  uses.
 */
module CrawlResults {
  import opened Wrappers
  import opened InsertionSet
  import opened ProductClassifier
  import opened LinkExtraction

  /**
    The value under a page URL: a `Set` of product links while the crawl runs,
    an array after finalisation. Both list their elements in insertion order.
   */
  datatype Entry = LinkSet(items: seq<string>) | LinkArray(items: seq<string>)

  type Results = map<string, Entry>

  /**
    The anchors' `href` attributes of the page at a URL, or `None` where
    rendering it throws. A function of the URL alone: every visit of a URL
    renders the same page.
   */
  type PageSource = string -> Option<seq<Option<string>>>

  /** A test on URLs deciding which links are recorded; the crawler uses `IsProductUrl`. */
  type UrlTest = string -> bool

  /** The product links stored for `url` so far (none when the key is missing). */
  function Current(m: Results, url: string): seq<string> {
    if url in m then m[url].items else []
  }

  /** The state during the crawl: every entry a non-empty set. */
  ghost predicate Collecting(m: Results) {
    forall k :: k in m ==> m[k].LinkSet? && m[k].items != [] && NoDup(m[k].items)
  }

  /** The state after finalisation: every entry a non-empty array without repetitions. */
  ghost predicate Finalised(m: Results) {
    forall k :: k in m ==> m[k].LinkArray? && m[k].items != [] && NoDup(m[k].items)
  }

  /** The product links of a link list, as strings, in list order. */
  function ProductLinks(links: seq<Option<string>>, isProduct: UrlTest): seq<string> {
    if links == [] then []
    else
      var last := links[|links| - 1];
      ProductLinks(links[..|links| - 1], isProduct) + (if last.Some? && isProduct(last.value) then [last.value] else [])
  }

  /** A string is among the product links iff it is in the list and `isProductUrl` accepts it. */
  lemma {:induction false} ProductLinksMembership(links: seq<Option<string>>, isProduct: UrlTest, s: string)
    ensures s in ProductLinks(links, isProduct) <==> Some(s) in links && isProduct(s)
  {
    if links != [] {
      var n := |links| - 1;
      ProductLinksMembership(links[..n], isProduct, s);
      assert links == links[..n] + [links[n]];
    }
  }

  /** One iteration of the task's loop over the extracted links. */
  function RecordLink(m: Results, url: string, link: Option<string>, isProduct: UrlTest): Results {
    if link.Some? && isProduct(link.value) then m[url := LinkSet(Add(Current(m, url), link.value))] else m
  }

  /** The task's whole loop over the extracted links, in order. */
  function RecordLinks(m: Results, url: string, links: seq<Option<string>>, isProduct: UrlTest): Results {
    if links == [] then m
    else RecordLink(RecordLinks(m, url, links[..|links| - 1], isProduct), url, links[|links| - 1], isProduct)
  }

  /**
    The results after a page whose product links are `p`: left alone when
    there are none, otherwise `results[url]` is the old set with `p` added.
   */
  function AfterPage(m: Results, url: string, p: seq<string>): Results {
    if p == [] then m else m[url := LinkSet(AddAll(Current(m, url), p))]
  }

  /** Adding one more product link to the set of `url` extends `p` by that link. */
  lemma AfterPageAdd(m: Results, url: string, p: seq<string>, x: string)
    ensures AfterPage(m, url, p)[url := LinkSet(Add(Current(AfterPage(m, url, p), url), x))]
         == AfterPage(m, url, p + [x])
  {
    var c := Current(m, url);
    assert Current(AfterPage(m, url, p), url) == AddAll(c, p) by {
      if p == [] {
        assert AddAll(c, p) == c;
      }
    }
    AddAllSnoc(c, p, x);
  }

  /**
    The loop touches only `results[url]`: it is left alone when no link is a
    product, and otherwise becomes the old set with the product links added.
   */
  lemma {:induction false} RecordLinksClosedForm(m: Results, url: string, links: seq<Option<string>>, isProduct: UrlTest)
    ensures RecordLinks(m, url, links, isProduct) == AfterPage(m, url, ProductLinks(links, isProduct))
  {
    if links != [] {
      var n := |links| - 1;
      var last, p0 := links[n], ProductLinks(links[..n], isProduct);
      RecordLinksClosedForm(m, url, links[..n], isProduct);
      if last.Some? && isProduct(last.value) {
        AfterPageAdd(m, url, p0, last.value);
      } else {
        assert ProductLinks(links, isProduct) == p0 + [] == p0;
      }
    }
  }

  /**
    What processing one page's link list does to the results: it keeps every
    entry a non-empty set without repetitions, leaves every other key as it
    was, creates `results[url]` only when some link is a product, and adds
    to it exactly the product links.
   */
  lemma RecordLinksEffect(m: Results, url: string, links: seq<Option<string>>, isProduct: UrlTest)
    requires Collecting(m)
    ensures Collecting(RecordLinks(m, url, links, isProduct))
    ensures forall k :: k != url ==> (k in RecordLinks(m, url, links, isProduct) <==> k in m)
    ensures forall k :: k != url && k in m ==> RecordLinks(m, url, links, isProduct)[k] == m[k]
    ensures url in RecordLinks(m, url, links, isProduct) <==>
      url in m || exists s :: Some(s) in links && isProduct(s)
    ensures forall s :: s in Current(RecordLinks(m, url, links, isProduct), url) <==>
      s in Current(m, url) || (Some(s) in links && isProduct(s))
    ensures Current(m, url) <= Current(RecordLinks(m, url, links, isProduct), url)
  {
    RecordLinksClosedForm(m, url, links, isProduct);
    var p := ProductLinks(links, isProduct);
    forall s ensures s in Current(RecordLinks(m, url, links, isProduct), url) <==>
      s in Current(m, url) || (Some(s) in links && isProduct(s))
    {
      ProductLinksMembership(links, isProduct, s);
      AddAllMembership(Current(m, url), p, s);
    }
    if p != [] {
      AddAllMembership(Current(m, url), p, p[0]);
      ProductLinksMembership(links, isProduct, p[0]);
    }
  }

  /** Updates of two different URLs' entries commute. */
  lemma AfterPageCommute(m: Results, u1: string, p1: seq<string>, u2: string, p2: seq<string>)
    requires u1 != u2
    ensures AfterPage(AfterPage(m, u1, p1), u2, p2) == AfterPage(AfterPage(m, u2, p2), u1, p1)
  {
    assert Current(AfterPage(m, u1, p1), u2) == Current(m, u2);
    assert Current(AfterPage(m, u2, p2), u1) == Current(m, u1);
    if p1 != [] && p2 != [] {
      var e1, e2 := LinkSet(AddAll(Current(m, u1), p1)), LinkSet(AddAll(Current(m, u2), p2));
      assert m[u1 := e1][u2 := e2] == m[u2 := e2][u1 := e1];
    }
  }

  /** Pages with different URLs can be processed in either order. */
  lemma RecordLinksCommute(m: Results, u1: string, l1: seq<Option<string>>, u2: string, l2: seq<Option<string>>, isProduct: UrlTest)
    requires u1 != u2
    ensures RecordLinks(RecordLinks(m, u1, l1, isProduct), u2, l2, isProduct)
         == RecordLinks(RecordLinks(m, u2, l2, isProduct), u1, l1, isProduct)
  {
    var p1, p2 := ProductLinks(l1, isProduct), ProductLinks(l2, isProduct);
    RecordLinksClosedForm(m, u1, l1, isProduct);
    RecordLinksClosedForm(m, u2, l2, isProduct);
    RecordLinksClosedForm(AfterPage(m, u1, p1), u2, l2, isProduct);
    RecordLinksClosedForm(AfterPage(m, u2, p2), u1, l1, isProduct);
    AfterPageCommute(m, u1, p1, u2, p2);
  }

  /** The effect of the task run for `url` on the page `page`. */
  function TaskResult(m: Results, url: string, page: Option<seq<Option<string>>>, parse: UrlParser, isProduct: UrlTest): Results {
    match page
    case None => m
    case Some(hrefs) => RecordLinks(m, url, Extracted(hrefs, url, parse), isProduct)
  }

  /** The product links the task for `url` finds on `page`. */
  function PageProducts(url: string, page: Option<seq<Option<string>>>, parse: UrlParser, isProduct: UrlTest): seq<string> {
    match page
    case None => []
    case Some(hrefs) => ProductLinks(Extracted(hrefs, url, parse), isProduct)
  }

  /**
    A link is found on a page iff the page rendered, one of its non-empty
    `href`s resolves (after cleaning) to that link, and the link is a product.
   */
  lemma PageProductsMembership(url: string, page: Option<seq<Option<string>>>, parse: UrlParser, isProduct: UrlTest, s: string)
    ensures s in PageProducts(url, page, parse, isProduct) <==>
      page.Some? && isProduct(s) &&
      exists i :: 0 <= i < |page.value| && page.value[i].Some? && page.value[i].value != ""
        && parse(CleanHref(page.value[i].value), url) == Some(s)
  {
    if page.Some? {
      var hrefs := page.value;
      ProductLinksMembership(Extracted(hrefs, url, parse), isProduct, s);
      DedupMembership(Candidates(hrefs, url, parse), Some(s));
      CandidatesMembership(hrefs, url, parse, Some(s));
    }
  }

  /** The tasks for `domains`, run in queue order, starting from an empty `results`. */
  function CrawlAll(domains: seq<string>, source: PageSource, parse: UrlParser, isProduct: UrlTest): Results {
    if domains == [] then map[]
    else
      var n := |domains| - 1;
      TaskResult(CrawlAll(domains[..n], source, parse, isProduct), domains[n], source(domains[n]), parse, isProduct)
  }

  /** What a crawl of some queued URLs has recorded: each entry holds exactly its page's product links. */
  ghost predicate Recorded(m: Results, domains: seq<string>, source: PageSource, parse: UrlParser, isProduct: UrlTest) {
    && Collecting(m)
    && (forall k :: k in m <==> k in domains && PageProducts(k, source(k), parse, isProduct) != [])
    && (forall k, s :: k in m ==> (s in m[k].items <==> s in PageProducts(k, source(k), parse, isProduct)))
  }

  /** One more task keeps `Recorded`, with its URL appended to the queue. */
  lemma TaskResultRecords(m: Results, domains: seq<string>, d: string, source: PageSource, parse: UrlParser, isProduct: UrlTest)
    requires Recorded(m, domains, source, parse, isProduct)
    ensures Recorded(TaskResult(m, d, source(d), parse, isProduct), domains + [d], source, parse, isProduct)
  {
    var page := source(d);
    if page.Some? {
      var links := Extracted(page.value, d, parse);
      var p := ProductLinks(links, isProduct);
      assert PageProducts(d, page, parse, isProduct) == p;
      var after := RecordLinks(m, d, links, isProduct);
      RecordLinksClosedForm(m, d, links, isProduct);
      assert after == AfterPage(m, d, p);
      if p != [] {
        forall s ensures s in after[d].items <==> s in p {
          AddAllMembership(Current(m, d), p, s);
        }
        assert NoDup(after[d].items) && p[0] in after[d].items by {
          AddAllMembership(Current(m, d), p, p[0]);
        }
      }
    }
  }

  /**
    After all tasks, a page URL is a key iff it was queued and its page has a
    product link, and its entry holds exactly that page's product links.
    `source` renders a URL the same way on every visit, so a URL queued twice
    adds nothing new the second time.
   */
  lemma {:induction false} CrawlAllOutcome(domains: seq<string>, source: PageSource, parse: UrlParser, isProduct: UrlTest)
    ensures Recorded(CrawlAll(domains, source, parse, isProduct), domains, source, parse, isProduct)
  {
    if domains != [] {
      var n := |domains| - 1;
      assert domains == domains[..n] + [domains[n]];
      CrawlAllOutcome(domains[..n], source, parse, isProduct);
      TaskResultRecords(CrawlAll(domains[..n], source, parse, isProduct), domains[..n], domains[n], source, parse, isProduct);
    }
  }

  /** The `results` object of one `crawlWebsites` call. */
  class ProductResults {
    var results: Results

    constructor ()
      ensures results == map[]
    {
      results := map[];
    }

    /** The task's loop over the links extracted from the page at `url`. */
    method RecordPage(url: string, urls: seq<Option<string>>)
      requires Collecting(results)
      modifies this
      ensures results == RecordLinks(old(results), url, urls, IsProductUrl)
      ensures Collecting(results)
    {
      for i := 0 to |urls|
        invariant results == RecordLinks(old(results), url, urls[..i], IsProductUrl)
      {
        var link := urls[i];
        assert urls[..i + 1][..i] == urls[..i];
        if ClassifyLink(link) {
          if url !in results {
            results := results[url := LinkSet([])];
          }
          results := results[url := LinkSet(Add(results[url].items, link.value))];
        }
      }
      assert urls[..|urls|] == urls;
      RecordLinksEffect(old(results), url, urls, IsProductUrl);
    }

    /** The task run for one queued URL; a page that fails to render records nothing. */
    method RunTask(url: string, page: Option<seq<Option<string>>>, parse: UrlParser)
      requires Collecting(results)
      modifies this
      ensures results == TaskResult(old(results), url, page, parse, IsProductUrl)
      ensures Collecting(results)
    {
      match page {
        case None =>
        case Some(hrefs) =>
          var urls := ExtractUrls(hrefs, url, parse);
          RecordPage(url, urls);
      }
    }

    /** `for (const key in results) results[key] = Array.from(results[key])`. */
    method Finalize()
      requires Collecting(results)
      modifies this
      ensures results.Keys == old(results).Keys
      ensures forall k :: k in results ==> results[k] == LinkArray(old(results)[k].items)
      ensures Finalised(results)
    {
      var pending := results.Keys;
      while pending != {}
        invariant pending <= results.Keys == old(results).Keys
        invariant forall k :: k in pending ==> results[k] == old(results)[k]
        invariant forall k :: k in results && k !in pending ==> results[k] == LinkArray(old(results)[k].items)
        decreases pending
      {
        var key :| key in pending;
        results := results[key := LinkArray(results[key].items)];
        pending := pending - {key};
      }
    }
  }

  /**
    `crawlWebsites(domains)`: queue every domain, run each task, then turn
    every set into an array. A key is a queued URL whose page has a product
    link, and its array holds exactly those links, each once.
   */
  method CrawlWebsites(domains: seq<string>, source: PageSource, parse: UrlParser) returns (output: Results)
    ensures Finalised(output)
    ensures forall k :: k in output <==> k in domains && PageProducts(k, source(k), parse, IsProductUrl) != []
    ensures forall k, s :: k in output ==>
      (s in output[k].items <==> s in PageProducts(k, source(k), parse, IsProductUrl))
  {
    var store := new ProductResults();
    for i := 0 to |domains|
      invariant store.results == CrawlAll(domains[..i], source, parse, IsProductUrl)
      invariant Collecting(store.results)
    {
      assert domains[..i + 1][..i] == domains[..i];
      store.RunTask(domains[i], source(domains[i]), parse);
    }
    assert domains[..|domains|] == domains;
    CrawlAllOutcome(domains, source, parse, IsProductUrl);
    store.Finalize();
    output := store.results;
  }
}
