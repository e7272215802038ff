/**
  Link extraction from a rendered page, `extractUrls(html, baseUrl)`. The HTML
  parser is not part of this model: a page is given as the list of its anchors'
  `href` attributes in document order (`None` where an anchor has none). Each
  non-empty `href` is cut at its first `#` and then at its first `?`, resolved
  against the page URL by `normalizeUrl`, and added to a `Set`; the result is
  that set as an array.

  `normalizeUrl(base, relative)` wraps the WHATWG `URL` constructor, which is
  not part of this model either: it is the parameter `parse`, where
  `parse(relative, base)` is `new URL(relative, base).toString()`, or `None`
  where the constructor throws. `normalizeUrl` then returns `null` instead of
  throwing, so the `catch` around it never runs and `null` itself is added to
  the set.
 */
module LinkExtraction {
  import opened Wrappers
  import opened InsertionSet

  /** `new URL(input, base).toString()`, or `None` where the constructor throws. */
  type UrlParser = (string, string) -> Option<string>

  /** `s.split(c)[0]`: everything before the first `c`, or all of `s` when it has none. */
  function BeforeFirst(s: string, c: char): (r: string)
    ensures r <= s && c !in r
    ensures r == s || s[|r|] == c
  {
    if s == [] || s[0] == c then []
    else [s[0]] + BeforeFirst(s[1..], c)
  }

  /**
    `href.split('#')[0].split('?')[0]`: the longest prefix of `href` holding
    neither `#` nor `?`.
   */
  function CleanHref(href: string): (r: string)
    ensures r <= href && '#' !in r && '?' !in r
    ensures r == href || href[|r|] == '#' || href[|r|] == '?'
  {
    var noFragment := BeforeFirst(href, '#');
    var r := BeforeFirst(noFragment, '?');
    assert forall x :: x in r ==> x in noFragment by {
      forall x | x in r ensures x in noFragment {
        var k :| 0 <= k < |r| && r[k] == x;
        assert noFragment[k] == x;
      }
    }
    r
  }

  /** The contract of CleanHref determines its result: no other prefix meets it. */
  lemma CleanHrefUnique(href: string, r: string)
    requires r <= href && '#' !in r && '?' !in r
    requires r == href || href[|r|] == '#' || href[|r|] == '?'
    ensures r == CleanHref(href)
  {
  }

  /** Cleaning a cleaned `href` changes nothing. */
  lemma CleanHrefIdempotent(href: string)
    ensures CleanHref(CleanHref(href)) == CleanHref(href)
  {
    var c := CleanHref(href);
    CleanHrefUnique(c, c);
  }

  /** `normalizeUrl(base, relative)`. */
  function NormalizeUrl(base: string, relative: string, parse: UrlParser): Option<string> {
    parse(relative, base)
  }

  /** What one anchor contributes: nothing when its `href` is missing or empty. */
  function HrefCandidate(href: Option<string>, base: string, parse: UrlParser): seq<Option<string>> {
    if href.Some? && href.value != "" then [NormalizeUrl(base, CleanHref(href.value), parse)] else []
  }

  /** The values handed to `links.add`, in document order. */
  function Candidates(hrefs: seq<Option<string>>, base: string, parse: UrlParser): seq<Option<string>> {
    if hrefs == [] then []
    else Candidates(hrefs[..|hrefs| - 1], base, parse) + HrefCandidate(hrefs[|hrefs| - 1], base, parse)
  }

  /** A value is added to the set iff some anchor with a non-empty `href` resolves to it. */
  lemma {:induction false} CandidatesMembership(hrefs: seq<Option<string>>, base: string, parse: UrlParser, x: Option<string>)
    ensures x in Candidates(hrefs, base, parse) <==>
      exists i :: 0 <= i < |hrefs| && hrefs[i].Some? && hrefs[i].value != ""
        && x == NormalizeUrl(base, CleanHref(hrefs[i].value), parse)
  {
    if hrefs != [] {
      var n := |hrefs| - 1;
      CandidatesMembership(hrefs[..n], base, parse, x);
      assert forall i :: 0 <= i < n ==> hrefs[..n][i] == hrefs[i];
    }
  }

  /** The array `extractUrls` returns: each candidate once, in order of first appearance. */
  function Extracted(hrefs: seq<Option<string>>, base: string, parse: UrlParser): seq<Option<string>> {
    Dedup(Candidates(hrefs, base, parse))
  }

  /** `extractUrls(html, baseUrl)`, given the page's `href` attributes. */
  method ExtractUrls(hrefs: seq<Option<string>>, base: string, parse: UrlParser)
    returns (links: seq<Option<string>>)
    ensures links == Extracted(hrefs, base, parse)
    ensures NoDup(links)
    ensures forall x :: x in links <==> x in Candidates(hrefs, base, parse)
  {
    links := [];
    for i := 0 to |hrefs|
      invariant links == AddAll([], Candidates(hrefs[..i], base, parse))
    {
      var href := hrefs[i];
      ghost var seen := Candidates(hrefs[..i], base, parse);
      assert hrefs[..i + 1][..i] == hrefs[..i];
      assert Candidates(hrefs[..i + 1], base, parse) == seen + HrefCandidate(href, base, parse);
      if href.Some? && href.value != "" {
        var fullUrl := NormalizeUrl(base, CleanHref(href.value), parse);
        AddAllSnoc([], seen, fullUrl);
        links := Add(links, fullUrl);
      } else {
        assert seen + [] == seen;
      }
    }
    assert hrefs[..|hrefs|] == hrefs;
    forall x ensures x in links <==> x in Candidates(hrefs, base, parse) {
      DedupMembership(Candidates(hrefs, base, parse), x);
    }
  }

  /** A non-empty `href` the URL constructor rejects puts `null` into the result. */
  lemma RejectedHrefYieldsNull(hrefs: seq<Option<string>>, base: string, parse: UrlParser, i: nat)
    requires i < |hrefs| && hrefs[i].Some? && hrefs[i].value != ""
    requires parse(CleanHref(hrefs[i].value), base) == None
    ensures None in Extracted(hrefs, base, parse)
  {
    CandidatesMembership(hrefs, base, parse, None);
    DedupMembership(Candidates(hrefs, base, parse), None);
  }
}
