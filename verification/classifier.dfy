/**
  The product-URL classifier `isProductUrl`. It tests the whole URL string (not
  only its path) against five case-insensitive, unanchored regular expressions
  and answers true when at least one of them finds a match:

    /\/product\//i  /\/item\//i  /\/p\//i  /\/dp\/[A-Z0-9]+/i  /\/gp\/product\/[A-Z0-9]+/i

  Each pattern is a literal, optionally followed by `[A-Z0-9]+`. Because the
  search is unanchored, `[A-Z0-9]+` matches exactly when at least one letter
  or digit follows the literal, so a pattern is a literal plus a flag saying
  whether one such character must follow. Without the `u` flag, the `i` flag
  folds case only between ASCII letters when the pattern is ASCII (a
  non-ASCII character never canonicalises to an ASCII one), so comparison
  modulo ASCII lower-casing is exactly what the regular expressions do.
 */
module ProductClassifier {
  import opened Wrappers

  /** ASCII lower-casing; every other character is left as it is. */
  function LowerAscii(c: char): char {
    if 'A' <= c <= 'Z' then (c as int + 32) as char else c
  }

  /** ASCII upper-casing; every other character is left as it is. */
  function UpperAscii(c: char): char {
    if 'a' <= c <= 'z' then (c as int - 32) as char else c
  }

  /** The character class `[A-Z0-9]` under the `i` flag. */
  predicate IsAsciiAlnum(c: char) {
    'A' <= c <= 'Z' || 'a' <= c <= 'z' || '0' <= c <= '9'
  }

  function FoldLower(u: string): string {
    seq(|u|, k requires 0 <= k < |u| => LowerAscii(u[k]))
  }

  function FoldUpper(u: string): string {
    seq(|u|, k requires 0 <= k < |u| => UpperAscii(u[k]))
  }

  /** `u` and `v` differ at most in the case of ASCII letters. */
  ghost predicate SameUpToCase(u: string, v: string) {
    |u| == |v| && forall k :: 0 <= k < |u| ==> LowerAscii(u[k]) == LowerAscii(v[k])
  }

  /** The characters of `u` from index `i` on spell `lit`, ignoring ASCII case. */
  predicate LiteralAt(u: string, i: nat, lit: string) {
    i + |lit| <= |u| && FoldLower(u[i..i + |lit|]) == FoldLower(lit)
  }

  /** A pattern: a literal, and whether `[A-Z0-9]+` follows it. */
  datatype Pattern = Pattern(literal: string, idFollows: bool)

  /** The pattern matches in `u` starting at index `i`. */
  predicate MatchesAt(p: Pattern, u: string, i: nat) {
    && LiteralAt(u, i, p.literal)
    && (p.idFollows ==> i + |p.literal| < |u| && IsAsciiAlnum(u[i + |p.literal|]))
  }

  /** The pattern matches somewhere in `u`. */
  ghost predicate Occurs(p: Pattern, u: string) {
    exists i: nat :: i <= |u| && MatchesAt(p, u, i)
  }

  /** The scan a regular-expression search makes: try every start index from `i` on. */
  function TestFrom(p: Pattern, u: string, i: nat): bool
    decreases |u| + 1 - i
  {
    if i > |u| then false
    else MatchesAt(p, u, i) || TestFrom(p, u, i + 1)
  }

  /** `pattern.test(u)` for a pattern without the `g` flag: a search from index 0. */
  function Test(p: Pattern, u: string): bool {
    TestFrom(p, u, 0)
  }

  /** The five patterns, in source order. */
  const Patterns: seq<Pattern> := [
    Pattern("/product/", false),
    Pattern("/item/", false),
    Pattern("/p/", false),
    Pattern("/dp/", true),
    Pattern("/gp/product/", true)
  ]

  /** `ps.some(pattern => pattern.test(u))`. */
  function SomeMatches(ps: seq<Pattern>, u: string): bool {
    if ps == [] then false
    else Test(ps[0], u) || SomeMatches(ps[1..], u)
  }

  /** `isProductUrl(u)`. */
  function IsProductUrl(u: string): bool {
    SomeMatches(Patterns, u)
  }

  /** The scan from index `i` succeeds iff the pattern matches at some index from `i` on. */
  lemma {:induction false} TestFromFindsMatch(p: Pattern, u: string, i: nat)
    ensures TestFrom(p, u, i) <==> exists j: nat :: i <= j <= |u| && MatchesAt(p, u, j)
    decreases |u| + 1 - i
  {
    if i <= |u| {
      TestFromFindsMatch(p, u, i + 1);
    }
  }

  /** `pattern.test(u)` is true iff the pattern matches somewhere in `u`. */
  lemma TestIsSearch(p: Pattern, u: string)
    ensures Test(p, u) <==> Occurs(p, u)
  {
    TestFromFindsMatch(p, u, 0);
  }

  /** `.some` is true iff some pattern of the list matches. */
  lemma {:induction false} SomeMatchesIsDisjunction(ps: seq<Pattern>, u: string)
    ensures SomeMatches(ps, u) <==> exists k :: 0 <= k < |ps| && Occurs(ps[k], u)
  {
    if ps != [] {
      TestIsSearch(ps[0], u);
      SomeMatchesIsDisjunction(ps[1..], u);
      assert forall k :: 1 <= k < |ps| ==> ps[k] == ps[1..][k - 1];
    }
  }

  /** `isProductUrl(u)` is true iff at least one of the five patterns matches `u`. */
  lemma IsProductUrlMeaning(u: string)
    ensures IsProductUrl(u) <==> exists p :: p in Patterns && Occurs(p, u)
  {
    SomeMatchesIsDisjunction(Patterns, u);
  }

  /**
    `isProductUrl(link)` for an element of the extracted link list, which is
    `null` where the URL constructor failed. JavaScript turns `null` into the
    string "null" before testing it, and that string is never a product.
   */
  function ClassifyLink(link: Option<string>): (r: bool)
    ensures r <==> link.Some? && IsProductUrl(link.value)
  {
    match link
    case None => NullIsNeverProduct(); IsProductUrl("null")
    case Some(s) => IsProductUrl(s)
  }

  // ---------------------------------------------------------------------
  // Order of the patterns

  /** `.some` over any arrangement of the same patterns gives the same answer. */
  lemma PatternOrderIrrelevant(ps: seq<Pattern>, u: string)
    requires multiset(ps) == multiset(Patterns)
    ensures SomeMatches(ps, u) == IsProductUrl(u)
  {
    SomeMatchesIsDisjunction(ps, u);
    IsProductUrlMeaning(u);
    if SomeMatches(ps, u) {
      var k :| 0 <= k < |ps| && Occurs(ps[k], u);
      assert ps[k] in multiset(ps);
      assert ps[k] in Patterns;
    }
    if IsProductUrl(u) {
      var p :| p in Patterns && Occurs(p, u);
      assert p in multiset(Patterns);
      var k :| 0 <= k < |ps| && ps[k] == p;
    }
  }

  // ---------------------------------------------------------------------
  // Case insensitivity

  lemma AlnumIgnoresCase(c: char, d: char)
    requires LowerAscii(c) == LowerAscii(d)
    ensures IsAsciiAlnum(c) == IsAsciiAlnum(d)
  {
  }

  lemma LiteralAtIgnoresCase(u: string, v: string, i: nat, lit: string)
    requires SameUpToCase(u, v)
    ensures LiteralAt(u, i, lit) == LiteralAt(v, i, lit)
  {
  }

  lemma MatchesAtIgnoresCase(p: Pattern, u: string, v: string, i: nat)
    requires SameUpToCase(u, v)
    ensures MatchesAt(p, u, i) == MatchesAt(p, v, i)
  {
    LiteralAtIgnoresCase(u, v, i, p.literal);
    var n := i + |p.literal|;
    if n < |u| {
      AlnumIgnoresCase(u[n], v[n]);
    }
  }

  /** Changing the case of ASCII letters never changes the classification. */
  lemma IsProductUrlIgnoresCase(u: string, v: string)
    requires SameUpToCase(u, v)
    ensures IsProductUrl(u) == IsProductUrl(v)
  {
    IsProductUrlMeaning(u);
    IsProductUrlMeaning(v);
    forall p: Pattern, i: nat | i <= |u|
      ensures MatchesAt(p, u, i) == MatchesAt(p, v, i)
    {
      MatchesAtIgnoresCase(p, u, v, i);
    }
    if IsProductUrl(u) {
      var p :| p in Patterns && Occurs(p, u);
      var i: nat :| i <= |u| && MatchesAt(p, u, i);
      assert Occurs(p, v);
    }
    if IsProductUrl(v) {
      var p :| p in Patterns && Occurs(p, v);
      var i: nat :| i <= |v| && MatchesAt(p, v, i);
      assert Occurs(p, u);
    }
  }

  /** Lower-casing or upper-casing a URL keeps its classification. */
  lemma CaseFoldingKeepsClass(u: string)
    ensures IsProductUrl(FoldLower(u)) == IsProductUrl(u)
    ensures IsProductUrl(FoldUpper(u)) == IsProductUrl(u)
  {
    IsProductUrlIgnoresCase(u, FoldLower(u));
    IsProductUrlIgnoresCase(u, FoldUpper(u));
  }

  // ---------------------------------------------------------------------
  // Which strings are products

  /** A pattern that matches anywhere makes `u` a product. */
  lemma MatchMakesProduct(p: Pattern, u: string, i: nat)
    requires p in Patterns && i <= |u| && MatchesAt(p, u, i)
    ensures IsProductUrl(u)
  {
    IsProductUrlMeaning(u);
    assert Occurs(p, u);
  }

  /** A `/product/`, `/item/` or `/p/` segment, in any case, anywhere makes a product. */
  lemma SegmentMakesProduct(u: string, i: nat, segment: string)
    requires segment == "/product/" || segment == "/item/" || segment == "/p/"
    requires LiteralAt(u, i, segment)
    ensures IsProductUrl(u)
  {
    var p := Pattern(segment, false);
    assert p in Patterns;
    LiteralAtFirstChar(u, i, segment);
    MatchMakesProduct(p, u, i);
  }

  /** `/dp/` followed by an ASCII letter or digit makes a product. */
  lemma DpWithIdMakesProduct(u: string, i: nat)
    requires LiteralAt(u, i, "/dp/") && i + 4 < |u| && IsAsciiAlnum(u[i + 4])
    ensures IsProductUrl(u)
  {
    var p := Pattern("/dp/", true);
    assert p in Patterns;
    MatchMakesProduct(p, u, i);
  }

  /** An exact occurrence is in particular a case-insensitive one. */
  lemma LiteralAtOfSlice(u: string, i: nat, lit: string)
    requires i + |lit| <= |u| && u[i..i + |lit|] == lit
    ensures LiteralAt(u, i, lit)
  {
    forall k | 0 <= k < |lit| ensures u[i + k] == lit[k] {
      assert u[i..i + |lit|][k] == u[i + k];
    }
  }

  /** A case-insensitive occurrence agrees with the literal character by character. */
  lemma LiteralAtChar(u: string, i: nat, lit: string, k: nat)
    requires LiteralAt(u, i, lit) && k < |lit|
    ensures i + k < |u| && LowerAscii(u[i + k]) == LowerAscii(lit[k])
  {
    assert FoldLower(u[i..i + |lit|])[k] == LowerAscii(u[i + k]);
  }

  lemma LiteralAtFirstChar(u: string, i: nat, lit: string)
    requires lit != [] && LiteralAt(u, i, lit)
    ensures i < |u| && LowerAscii(u[i]) == LowerAscii(lit[0])
  {
    LiteralAtChar(u, i, lit, 0);
  }

  lemma LiteralAtSuffix(u: string, i: nat, lit: string, n: nat)
    requires n <= |lit| && LiteralAt(u, i, lit)
    ensures LiteralAt(u, i + n, lit[n..])
  {
    var tail := lit[n..];
    forall k | 0 <= k < |tail|
      ensures FoldLower(u[i + n..i + n + |tail|])[k] == FoldLower(tail)[k]
    {
      LiteralAtChar(u, i, lit, n + k);
    }
  }

  /**
    Every pattern starts with `/` followed by one of `p`, `i`, `d`, `g`; a
    string in which no `/` is followed by one of these, in either case, is no
    product.
   */
  lemma NoCandidateSlashNeverProduct(u: string)
    requires forall i :: 0 <= i < |u| - 1 && u[i] == '/' ==> LowerAscii(u[i + 1]) !in "pidg"
    ensures !IsProductUrl(u)
  {
    IsProductUrlMeaning(u);
    if IsProductUrl(u) {
      var p :| p in Patterns && Occurs(p, u);
      var i: nat :| i <= |u| && MatchesAt(p, u, i);
      LiteralAtChar(u, i, p.literal, 0);
      LiteralAtChar(u, i, p.literal, 1);
      assert false;
    }
  }

  /** Every pattern starts with `/`, so a string without `/` is never a product. */
  lemma NoSlashNeverProduct(u: string)
    requires '/' !in u
    ensures !IsProductUrl(u)
  {
    NoCandidateSlashNeverProduct(u);
  }

  /** The string JavaScript tests in place of `null`. */
  lemma NullIsNeverProduct()
    ensures !IsProductUrl("null")
  {
    NoSlashNeverProduct("null");
  }

  // ---------------------------------------------------------------------
  // The fifth pattern is redundant

  /** Every match of `/gp/product/[A-Z0-9]+` contains a match of `/product/`. */
  lemma GpProductImpliesProduct(u: string)
    requires Occurs(Patterns[4], u)
    ensures Occurs(Patterns[0], u)
  {
    var i: nat :| i <= |u| && MatchesAt(Patterns[4], u, i);
    LiteralAtSuffix(u, i, "/gp/product/", 3);
    assert "/gp/product/"[3..] == "/product/";
    assert MatchesAt(Patterns[0], u, i + 3);
  }

  /** Dropping `/gp/product/[A-Z0-9]+` from the list never changes the answer. */
  lemma GpProductPatternRedundant(u: string)
    ensures SomeMatches(Patterns[..4], u) == IsProductUrl(u)
  {
    SomeMatchesIsDisjunction(Patterns[..4], u);
    SomeMatchesIsDisjunction(Patterns, u);
    if IsProductUrl(u) {
      var k :| 0 <= k < |Patterns| && Occurs(Patterns[k], u);
      if k == 4 {
        GpProductImpliesProduct(u);
        assert Occurs(Patterns[..4][0], u);
      } else {
        assert Occurs(Patterns[..4][k], u);
      }
    }
  }

  // ---------------------------------------------------------------------
  // Concrete URLs

  /** `/dp/` on its own is no product: no identifier follows, and it holds no `/p/`. */
  lemma BareDpSegmentIsNotProduct()
    ensures !IsProductUrl("/dp/")
  {
    var u := "/dp/";
    IsProductUrlMeaning(u);
    if IsProductUrl(u) {
      var p :| p in Patterns && Occurs(p, u);
      var i: nat :| i <= |u| && MatchesAt(p, u, i);
      LiteralAtChar(u, i, p.literal, 0);
      LiteralAtChar(u, i, p.literal, 1);
      assert false;
    }
  }

  lemma ProductSegmentExample()
    ensures IsProductUrl("https://example.com/product/123")
  {
    var u := "https://example.com/product/123";
    assert u[19..28] == "/product/";
    LiteralAtOfSlice(u, 19, "/product/");
    SegmentMakesProduct(u, 19, "/product/");
  }

  lemma ShortSegmentExample()
    ensures IsProductUrl("https://example.com/p/abc")
  {
    var u := "https://example.com/p/abc";
    assert u[19..22] == "/p/";
    LiteralAtOfSlice(u, 19, "/p/");
    SegmentMakesProduct(u, 19, "/p/");
  }

  lemma DpIdentifierExample()
    ensures IsProductUrl("https://example.com/dp/B000123456")
  {
    var u := "https://example.com/dp/B000123456";
    assert u[19..23] == "/dp/" && u[23] == 'B';
    LiteralAtOfSlice(u, 19, "/dp/");
    DpWithIdMakesProduct(u, 19);
  }

  lemma NonProductExampleUrl()
    ensures !IsProductUrl("https://example.com/about")
  {
    NoCandidateSlashNeverProduct("https://example.com/about");
  }
}
