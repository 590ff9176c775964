/** The URL-handling and extraction part of the scraping service
    (src/lib/services/scrape-service.ts): domain extraction, retailer display names,
    product/catalog URL classification, product-link harvesting from catalog pages,
    catalog detection from page text, and how an extracted product becomes a candidate.
    Regular expressions are written out as predicates over the URL or page text. */
module Scrape {
  import opened Types
  import opened Text
  import opened Seqs

  // ---------------------------------------------------------------------------
  // URLs

  /** The two parts of a parsed URL the service reads. */
  datatype Url = Url(hostname: string, pathname: string)

  predicate EndsAuthority(c: char) { c == '/' || c == '?' || c == '#' }

  predicate EndsPath(c: char) { c == '?' || c == '#' }

  /** Length of the authority part at the start of `s`. */
  function AuthorityLength(s: string): (n: nat)
    ensures n <= |s|
    ensures forall i :: 0 <= i < n ==> !EndsAuthority(s[i])
    ensures n < |s| ==> EndsAuthority(s[n])
  {
    if s == [] || EndsAuthority(s[0]) then 0 else 1 + AuthorityLength(s[1..])
  }

  /** Length of the path part at the start of `s`. */
  function PathLength(s: string): (n: nat)
    ensures n <= |s|
    ensures forall i :: 0 <= i < n ==> !EndsPath(s[i])
    ensures n < |s| ==> EndsPath(s[n])
  {
    if s == [] || EndsPath(s[0]) then 0 else 1 + PathLength(s[1..])
  }

  /** Length of the `http://` or `https://` prefix, 0 when there is none. */
  function SchemeLength(s: string): (k: nat)
    ensures k == 0 || k == 7 || k == 8
    ensures k <= |s|
  {
    if StartsWith(s, "https://") then 8 else if StartsWith(s, "http://") then 7 else 0
  }

  /** `new URL(s)` restricted to http and https URLs; None where the constructor throws.
      The host runs up to the first `/`, `?` or `#`, loses its port and is lower-cased;
      an empty host is an error; an empty path reads as "/". */
  function ParseUrl(s: string): (r: Option<Url>)
    ensures r.Some? ==> SchemeLength(s) > 0
    ensures r.Some? ==> r.value.hostname != [] && ':' !in r.value.hostname && '/' !in r.value.hostname
    ensures r.Some? ==> forall i :: 0 <= i < |r.value.hostname| ==> !('A' <= r.value.hostname[i] <= 'Z')
    ensures r.Some? ==> StartsWith(r.value.pathname, "/") || r.value.pathname == "/"
  {
    var k := SchemeLength(s);
    if k == 0 then None
    else
      var rest := s[k..];
      var a := AuthorityLength(rest);
      var host := Lower(Before(rest[..a], ':'));
      if host == [] then None
      else
        var tail := rest[a..];
        var path := tail[..PathLength(tail)];
        assert path != [] ==> path[0] == '/';
        Some(Url(host, if path == [] then "/" else path))
  }

  /** `extractDomain`: the hostname with one leading "www." removed, "" when the URL
      does not parse. */
  function ExtractDomain(url: string): (r: string)
    ensures ParseUrl(url).None? ==> r == ""
    ensures ParseUrl(url).Some? && StartsWith(ParseUrl(url).value.hostname, "www.") ==>
      "www." + r == ParseUrl(url).value.hostname
    ensures ParseUrl(url).Some? && !StartsWith(ParseUrl(url).value.hostname, "www.") ==>
      r == ParseUrl(url).value.hostname
  {
    match ParseUrl(url)
    case None => ""
    case Some(u) =>
      if StartsWith(u.hostname, "www.") then
        assert u.hostname == "www." + u.hostname[4..];
        u.hostname[4..]
      else u.hostname
  }

  // ---------------------------------------------------------------------------
  // Retailer display names

  const RetailerNames: map<string, string> := map[
    "amazon.com" := "Amazon",
    "walmart.com" := "Walmart",
    "nike.com" := "Nike",
    "nordstrom.com" := "Nordstrom",
    "macys.com" := "Macy's",
    "dickssportinggoods.com" := "Dick's Sporting Goods",
    "rei.com" := "REI",
    "target.com" := "Target",
    "zappos.com" := "Zappos",
    "bestbuy.com" := "Best Buy",
    "adidas.com" := "Adidas",
    "underarmour.com" := "Under Armour"]

  /** `extractRetailerName`: the fixed name of a known retailer; otherwise the first
      dot-separated label of the domain with its first character upper-cased. */
  function ExtractRetailerName(domain: string): (r: string)
    ensures domain in RetailerNames ==> r == RetailerNames[domain]
    ensures domain !in RetailerNames ==>
      |r| == |Before(domain, '.')| && '.' !in r &&
      (forall i :: 1 <= i < |r| ==> r[i] == Before(domain, '.')[i]) &&
      (|r| > 0 ==> !('a' <= r[0] <= 'z') && LowerChar(r[0]) == LowerChar(domain[0]))
  {
    if domain in RetailerNames then RetailerNames[domain]
    else
      var first := Before(domain, '.');
      if first == [] then [] else [UpperChar(first[0])] + first[1..]
  }

  // ---------------------------------------------------------------------------
  // URL classification

  /** The regular expressions of the two pattern tables: most are a fixed substring;
      three need more than that. */
  datatype Pattern =
    | Literal(text: string)
    | SiteSkuPage          // \/site\/[^/]+\/\d+\.p
    | SkuHtmlPage          // \/[A-Z0-9]{6,}\.html
    | TrailingWordSegment  // \/[a-z-]+$

  predicate UpperOrDigit(c: char) { 'A' <= c <= 'Z' || IsDigit(c) }

  predicate LowerOrDash(c: char) { 'a' <= c <= 'z' || c == '-' }

  /** A match of `\/site\/[^/]+\/\d+\.p` starting at `s[0]`. */
  predicate SiteSkuAt(s: string) {
    StartsWith(s, "/site/") &&
    var rest := s[6..];
    var seg := Before(rest, '/');
    seg != [] && |seg| < |rest| &&
    var d := rest[|seg| + 1..];
    var n := Run(d, IsDigit);
    n > 0 && StartsWith(d[n..], ".p")
  }

  /** A match of `\/[A-Z0-9]{6,}\.html` starting at `s[0]`. */
  predicate SkuHtmlAt(s: string) {
    |s| > 0 && s[0] == '/' &&
    var n := Run(s[1..], UpperOrDigit);
    n >= 6 && StartsWith(s[1 + n..], ".html")
  }

  /** A match of `\/[a-z-]+$` starting at `s[0]`. */
  predicate TrailingWordAt(s: string) {
    |s| >= 2 && s[0] == '/' && Run(s[1..], LowerOrDash) == |s| - 1
  }

  /** `pattern.test(url)` */
  predicate Matches(p: Pattern, url: string) {
    match p
    case Literal(t) => Contains(url, t)
    case SiteSkuPage => Somewhere(url, SiteSkuAt)
    case SkuHtmlPage => Somewhere(url, SkuHtmlAt)
    case TrailingWordSegment => Somewhere(url, TrailingWordAt)
  }

  /** PRODUCT_URL_PATTERNS and CATALOG_URL_PATTERNS; a domain without an entry has no
      patterns. */
  const ProductUrlPatterns: map<string, seq<Pattern>> := map[
    "amazon.com" := [Literal("/dp/"), Literal("/gp/product/")],
    "walmart.com" := [Literal("/ip/")],
    "nike.com" := [Literal("/t/")],
    "nordstrom.com" := [Literal("/s/")],
    "macys.com" := [Literal("/product/")],
    "dickssportinggoods.com" := [Literal("/p/")],
    "rei.com" := [Literal("/product/")],
    "target.com" := [Literal("/p/")],
    "zappos.com" := [Literal("/p/")],
    "bestbuy.com" := [SiteSkuPage],
    "adidas.com" := [SkuHtmlPage],
    "underarmour.com" := [Literal("/p/")]]

  function ProductPatterns(domain: string): seq<Pattern> {
    if domain in ProductUrlPatterns then ProductUrlPatterns[domain] else []
  }

  const CatalogUrlPatterns: map<string, seq<Pattern>> := map[
    "amazon.com" := [Literal("/s?"), Literal("/s/")],
    "walmart.com" := [Literal("/search"), Literal("/browse/")],
    "nike.com" := [Literal("/w/")],
    "nordstrom.com" := [Literal("/sr?"), Literal("/c/")],
    "macys.com" := [Literal("/shop/")],
    "dickssportinggoods.com" := [Literal("/c/")],
    "rei.com" := [Literal("/c/"), Literal("/search")],
    "target.com" := [Literal("/s?"), Literal("/c/")],
    "zappos.com" := [Literal("/search"), Literal("/filters/")],
    "bestbuy.com" := [Literal("/searchpage"), Literal("/site/searchpage")],
    "adidas.com" := [Literal("/search"), TrailingWordSegment],
    "underarmour.com" := [Literal("/c/")]]

  function CatalogPatterns(domain: string): seq<Pattern> {
    if domain in CatalogUrlPatterns then CatalogUrlPatterns[domain] else []
  }

  /** `patterns.some((p) => p.test(url))` */
  function AnyMatches(ps: seq<Pattern>, url: string): (r: bool)
    ensures r <==> exists i :: 0 <= i < |ps| && Matches(ps[i], url)
  {
    if ps == [] then false else Matches(ps[0], url) || AnyMatches(ps[1..], url)
  }

  predicate IsProductUrl(url: string) {
    exists p :: p in ProductPatterns(ExtractDomain(url)) && Matches(p, url)
  }

  predicate IsCatalogUrl(url: string) {
    exists p :: p in CatalogPatterns(ExtractDomain(url)) && Matches(p, url)
  }

  datatype UrlClass = Product | Catalog | Unknown

  /** `classifyUrl`: product patterns are tried before catalog patterns. */
  function ClassifyUrl(url: string): UrlClass {
    var domain := ExtractDomain(url);
    if AnyMatches(ProductPatterns(domain), url) then Product
    else if AnyMatches(CatalogPatterns(domain), url) then Catalog
    else Unknown
  }

  /** A URL that some product pattern of its domain matches is a product page, whatever
      the catalog patterns say; otherwise a catalog pattern makes it a catalog page. */
  lemma ClassifyUrlPriority(url: string)
    ensures ClassifyUrl(url) == Product <==> IsProductUrl(url)
    ensures ClassifyUrl(url) == Catalog <==> !IsProductUrl(url) && IsCatalogUrl(url)
    ensures ClassifyUrl(url) == Unknown <==> !IsProductUrl(url) && !IsCatalogUrl(url)
  {
  }

  /** A URL whose domain is not one of the twelve retailers, and in particular one that
      does not parse, is "unknown"; two URLs with the same domain that the same patterns
      match get the same class. */
  lemma ClassifyDependsOnDomain(url: string, other: string)
    ensures ExtractDomain(url) !in RetailerNames ==> ClassifyUrl(url) == Unknown
    ensures ParseUrl(url).None? ==> ClassifyUrl(url) == Unknown
    ensures ExtractDomain(url) == ExtractDomain(other) &&
            (forall p :: p in ProductPatterns(ExtractDomain(url)) + CatalogPatterns(ExtractDomain(url)) ==>
               (Matches(p, url) <==> Matches(p, other))) ==>
            ClassifyUrl(url) == ClassifyUrl(other)
  {
    if ExtractDomain(url) !in RetailerNames {
      NoPatternsOutsideRetailers(ExtractDomain(url));
    }
    if ParseUrl(url).None? {
      UnparsableIsUnknown(url);
    }
    var d := ExtractDomain(url);
    if d == ExtractDomain(other) &&
       (forall p :: p in ProductPatterns(d) + CatalogPatterns(d) ==> (Matches(p, url) <==> Matches(p, other))) {
      SamePatternsSameClass(url, other);
    }
  }

  /** Both pattern tables are keyed by the twelve retailers. */
  lemma NoPatternsOutsideRetailers(d: string)
    requires d !in RetailerNames
    ensures ProductPatterns(d) == [] && CatalogPatterns(d) == []
  {
    assert d !in ProductUrlPatterns;
    assert d !in CatalogUrlPatterns;
  }

  lemma SamePatternsSameClass(url: string, other: string)
    requires ExtractDomain(url) == ExtractDomain(other)
    requires forall p :: p in ProductPatterns(ExtractDomain(url)) + CatalogPatterns(ExtractDomain(url)) ==>
               (Matches(p, url) <==> Matches(p, other))
    ensures ClassifyUrl(url) == ClassifyUrl(other)
  {
    var d := ExtractDomain(url);
    assert AnyMatches(ProductPatterns(d), url) == AnyMatches(ProductPatterns(d), other) by {
      forall i | 0 <= i < |ProductPatterns(d)| ensures Matches(ProductPatterns(d)[i], url) == Matches(ProductPatterns(d)[i], other) {
        assert ProductPatterns(d)[i] in ProductPatterns(d) + CatalogPatterns(d);
      }
    }
    assert AnyMatches(CatalogPatterns(d), url) == AnyMatches(CatalogPatterns(d), other) by {
      forall i | 0 <= i < |CatalogPatterns(d)| ensures Matches(CatalogPatterns(d)[i], url) == Matches(CatalogPatterns(d)[i], other) {
        assert CatalogPatterns(d)[i] in ProductPatterns(d) + CatalogPatterns(d);
      }
    }
  }

  lemma UnparsableIsUnknown(url: string)
    requires ParseUrl(url).None?
    ensures ClassifyUrl(url) == Unknown
  {
    assert ExtractDomain(url) == "";
    assert "" !in ProductUrlPatterns && "" !in CatalogUrlPatterns;
  }

  /** A string that has no position where `t` starts does not contain `t`. */
  lemma NotContains(s: string, t: string)
    requires forall i :: 0 <= i <= |s| ==> !StartsWith(s[i..], t)
    ensures !Contains(s, t)
    decreases |s|
  {
    assert s[0..] == s;
    if |s| > 0 {
      forall i | 0 <= i <= |s[1..]| ensures !StartsWith(s[1..][i..], t) {
        assert s[1..][i..] == s[i + 1..];
      }
      NotContains(s[1..], t);
    }
  }

  // ---------------------------------------------------------------------------
  // Markdown links on catalog pages

  /** A markdown link `[title](url)`. */
  datatype Link = Link(url: string, title: string)

  function LinkUrl(l: Link): string { l.url }

  function Render(l: Link): string { "[" + l.title + "](" + l.url + ")" }

  /** What `\[([^\]]+)\]\((https?:\/\/[^)]+)\)` can capture: a non-empty title without
      `]`, and an http or https URL with something after the scheme and no `)`. */
  predicate WellFormed(l: Link) {
    l.title != [] && ']' !in l.title && ')' !in l.url &&
    ((StartsWith(l.url, "https://") && |l.url| > 8) || (StartsWith(l.url, "http://") && |l.url| > 7))
  }

  /** `(https?:\/\/[^)]+)\)` tried at `s[0]`: the captured URL. */
  function TargetAt(s: string): Option<string> {
    var k := SchemeLength(s);
    if k == 0 then None
    else
      var body := Before(s[k..], ')');
      if body == [] || k + |body| >= |s| then None
      else Some(s[..k + |body|])
  }

  /** A captured URL is followed by `)`, contains none, and keeps its scheme and
      something after it. */
  lemma TargetAtFacts(s: string)
    ensures var r := TargetAt(s);
      && (r.Some? ==> |r.value| < |s| && s[|r.value|] == ')' && r.value == s[..|r.value|])
      && (r.Some? ==> ')' !in r.value && SchemeLength(r.value) > 0 && |r.value| > SchemeLength(r.value))
  {
    var k := SchemeLength(s);
    if TargetAt(s).Some? {
      var body := Before(s[k..], ')');
      assert s[..k + |body|] == s[..k] + body;
      assert SchemeLength(s[..k + |body|]) == k by {
        assert s[..k + |body|][..k] == s[..k];
        if k == 7 {
          assert s[..k + |body|][..8] == s[..8];
        }
      }
    }
  }

  /** The link regular expression tried at `s[0]`: the link and the length of the match. */
  function LinkAt(s: string): Option<(Link, nat)> {
    if |s| == 0 || s[0] != '[' then None
    else
      var title := Before(s[1..], ']');
      var j := 1 + |title|;
      if title == [] || j + 1 >= |s| || s[j + 1] != '(' then None
      else
        var rest := s[j + 2..];
        match TargetAt(rest)
        case None => None
        case Some(url) => Some((Link(url, title), j + 3 + |url|))
  }

  /** A match is a well-formed link whose rendering is exactly the matched text. */
  lemma LinkAtFacts(s: string)
    ensures var r := LinkAt(s);
      r.Some? ==> 0 < r.value.1 <= |s| && WellFormed(r.value.0) && s[..r.value.1] == Render(r.value.0)
  {
    if LinkAt(s).Some? {
      var title := Before(s[1..], ']');
      assert title != [] && |title| + 2 < |s| && s[|title| + 2] == '(';
      var rest := s[|title| + 3..];
      var url := TargetAt(rest).value;
      assert LinkAt(s) == Some((Link(url, title), |title| + 4 + |url|));
      TargetAtFacts(rest);
      LinkAtMatch(s, title, rest, url);
    }
  }

  /** What the pieces `LinkAt` cuts out of `s` add up to. */
  lemma LinkAtMatch(s: string, title: string, rest: string, url: string)
    requires |s| > 0 && s[0] == '[' && title == Before(s[1..], ']') && title != []
    requires |title| + 2 < |s| && s[|title| + 2] == '(' && rest == s[|title| + 3..]
    requires |url| < |rest| && rest[|url|] == ')' && url == rest[..|url|]
    requires ')' !in url && SchemeLength(url) > 0 && |url| > SchemeLength(url)
    ensures |title| + 4 + |url| <= |s|
    ensures WellFormed(Link(url, title))
    ensures s[..|title| + 4 + |url|] == Render(Link(url, title))
  {
    var t := |title|;
    assert |title| < |s[1..]| && s[1..][t] == ']';
    assert s[1 + t] == ']';
    assert s[1..1 + t] == title;
    assert s[3 + t..3 + t + |url|] == url;
    assert s[3 + t + |url|] == ')';
    LinkAtSplit(s, title, url);
    SchemeWellFormed(url);
  }

  /** A captured URL has an http or https scheme and something after it. */
  lemma SchemeWellFormed(url: string)
    requires SchemeLength(url) > 0 && |url| > SchemeLength(url)
    ensures (StartsWith(url, "https://") && |url| > 8) || (StartsWith(url, "http://") && |url| > 7)
  {
  }

  lemma LinkAtSplit(s: string, title: string, url: string)
    requires |title| + 4 + |url| <= |s|
    requires s[0] == '[' && s[1..1 + |title|] == title && s[1 + |title|] == ']' && s[2 + |title|] == '('
    requires s[3 + |title|..3 + |title| + |url|] == url && s[3 + |title| + |url|] == ')'
    ensures s[..|title| + 4 + |url|] == "[" + title + "](" + url + ")"
  {
    var r := "[" + title + "](" + url + ")";
    var t := |title|;
    forall i | 0 <= i < |r| ensures s[i] == r[i] {
      if 1 <= i < 1 + t {
        assert s[i] == s[1..1 + t][i - 1];
      } else if 3 + t <= i < 3 + t + |url| {
        assert s[i] == s[3 + t..3 + t + |url|][i - 3 - t];
      }
    }
  }

  /** Parsing a rendered well-formed link gives it back, whatever follows it. */
  lemma ParseRender(l: Link, rest: string)
    requires WellFormed(l)
    ensures LinkAt(Render(l) + rest) == Some((l, |Render(l)|))
  {
    RenderPieces(l, rest);
    LinkAtIs(Render(l) + rest, l.title, l.url);
  }

  /** Where the title and the target of a rendered link are found again. */
  lemma RenderPieces(l: Link, rest: string)
    requires WellFormed(l)
    ensures var s := Render(l) + rest; var t := |l.title|;
      && |s| > 0 && s[0] == '[' && Before(s[1..], ']') == l.title && t + 2 < |s| && s[t + 2] == '('
      && TargetAt(s[t + 3..]) == Some(l.url) && |Render(l)| == t + 4 + |l.url|
  {
    var s := Render(l) + rest;
    var t := |l.title|;
    var after := "](" + l.url + ")" + rest;
    assert s[1..] == l.title + after;
    BeforeFirst(l.title, ']', after);
    assert s[t + 3..] == l.url + (")" + rest);
    TargetRender(l.url, ")" + rest);
  }

  /** `LinkAt` on text whose title and target have been found. */
  lemma LinkAtIs(s: string, title: string, url: string)
    requires |s| > 0 && s[0] == '[' && Before(s[1..], ']') == title && title != []
    requires |title| + 2 < |s| && s[|title| + 2] == '(' && TargetAt(s[|title| + 3..]) == Some(url)
    ensures LinkAt(s) == Some((Link(url, title), |title| + 4 + |url|))
  {
    var j := 1 + |title|;
    assert s[j + 2..] == s[|title| + 3..];
  }

  lemma TargetRender(url: string, rest: string)
    requires ')' !in url && |rest| > 0 && rest[0] == ')'
    requires (StartsWith(url, "https://") && |url| > 8) || (StartsWith(url, "http://") && |url| > 7)
    ensures TargetAt(url + rest) == Some(url)
  {
    var s := url + rest;
    var k := SchemeLength(url);
    SchemeOfPrefix(url, rest);
    assert s[k..] == url[k..] + rest;
    BeforeFirst(url[k..], ')', rest);
    var body := Before(s[k..], ')');
    assert body == url[k..] && body != [];
    assert s[..k + |body|] == url;
  }

  /** The scheme of a URL is read off its first eight characters. */
  lemma SchemeOfPrefix(url: string, rest: string)
    requires (StartsWith(url, "https://") && |url| > 8) || (StartsWith(url, "http://") && |url| > 7)
    ensures SchemeLength(url + rest) == SchemeLength(url) && 0 < SchemeLength(url) < |url|
  {
    var s := url + rest;
    assert s[..7] == url[..7];
    assert s[..8] == url[..8];
    if StartsWith(url, "https://") {
      assert url[4] == 's';
    } else {
      assert url[4] == ':';
    }
  }

  lemma BeforeFirst(w: string, c: char, rest: string)
    requires c !in w && |rest| > 0 && rest[0] == c
    ensures Before(w + rest, c) == w
    decreases |w|
  {
    if w != [] {
      assert (w + rest)[1..] == w[1..] + rest;
      BeforeFirst(w[1..], c, rest);
    }
  }

  /** `regex.exec(s)` with the global flag and `lastIndex == pos`: the leftmost match at
      or after `pos`, and where the next search starts. */
  function Exec(s: string, pos: nat): (r: Option<(Link, nat)>)
    requires pos <= |s|
    ensures r.Some? ==> pos < r.value.1 <= |s|
    decreases |s| - pos
  {
    if pos == |s| then None
    else
      LinkAtFacts(s[pos..]);
      match LinkAt(s[pos..])
      case Some(m) => Some((m.0, pos + m.1))
      case None => Exec(s, pos + 1)
  }

  /** Every link the exec loop visits from `pos` on, in order. */
  function LinksFrom(s: string, pos: nat): seq<Link>
    requires pos <= |s|
    decreases |s| - pos
  {
    match Exec(s, pos)
    case None => []
    case Some(m) => [m.0] + LinksFrom(s, m.1)
  }

  function MarkdownLinks(s: string): seq<Link> { LinksFrom(s, 0) }

  lemma {:induction false} LinksFromWellFormed(s: string, pos: nat)
    requires pos <= |s|
    ensures forall l :: l in LinksFrom(s, pos) ==> WellFormed(l)
    decreases |s| - pos
  {
    match Exec(s, pos)
    case None =>
    case Some(m) =>
      ExecFinds(s, pos);
      LinksFromWellFormed(s, m.1);
  }

  lemma {:induction false} ExecFinds(s: string, pos: nat)
    requires pos <= |s|
    ensures Exec(s, pos).Some? ==> WellFormed(Exec(s, pos).value.0)
    decreases |s| - pos
  {
    if pos < |s| {
      LinkAtFacts(s[pos..]);
      if LinkAt(s[pos..]).None? {
        ExecFinds(s, pos + 1);
      }
    }
  }

  /** A link the loop keeps: same domain as the page, not a catalog URL, and either a
      product URL or one whose path has at least two non-empty segments. */
  predicate Eligible(l: Link, sourceDomain: string) {
    && ExtractDomain(l.url) == sourceDomain
    && ClassifyUrl(l.url) != Catalog
    && ParseUrl(l.url).Some?
    && (ClassifyUrl(l.url) == Product || |Segments(ParseUrl(l.url).value.pathname, '/')| >= 2)
  }

  /** A link on which `new URL(url)` throws once it has passed the domain check. */
  predicate Throws(l: Link, sourceDomain: string) {
    ExtractDomain(l.url) == sourceDomain && ParseUrl(l.url).None?
  }

  function EligibleFor(sourceDomain: string): Link -> bool {
    l => Eligible(l, sourceDomain)
  }

  /** Some link of `s` throws. */
  predicate AnyThrows(s: seq<Link>, sourceDomain: string)
    decreases |s|
  {
    s != [] && (AnyThrows(s[..|s| - 1], sourceDomain) || Throws(s[|s| - 1], sourceDomain))
  }

  lemma {:induction false} AnyThrowsPrefix(s: seq<Link>, n: nat, sourceDomain: string)
    requires n <= |s| && AnyThrows(s[..n], sourceDomain)
    ensures AnyThrows(s, sourceDomain)
    decreases |s| - n
  {
    if n < |s| {
      assert s[..n + 1][..n] == s[..n];
      AnyThrowsPrefix(s, n + 1, sourceDomain);
    } else {
      assert s[..n] == s;
    }
  }

  /** What `extractProductLinksFromCatalog` returns: the first three eligible links, with
      repeated URLs dropped in first-seen order; an error when a same-domain link does not
      parse. */
  function CatalogLinks(content: string, sourceUrl: string): Result<seq<Link>> {
    KeepLinks(MarkdownLinks(content), ExtractDomain(sourceUrl))
  }

  function KeepLinks(ms: seq<Link>, sourceDomain: string): Result<seq<Link>> {
    if AnyThrows(ms, sourceDomain) then Err("Invalid URL")
    else
      var kept := DedupBy(Filter(ms, EligibleFor(sourceDomain)), LinkUrl, {});
      Ok(if |kept| <= 3 then kept else kept[..3])
  }

  /** The harvested links: at most three, same domain as the page, never a catalog URL,
      a product URL or a deep path, each a link of the page, no URL twice. */
  lemma CatalogLinksFacts(content: string, sourceUrl: string)
    requires CatalogLinks(content, sourceUrl).Ok?
    ensures var r := CatalogLinks(content, sourceUrl).value;
      && |r| <= 3
      && UniqueKeys(r, LinkUrl)
      && forall l :: l in r ==>
           && l in MarkdownLinks(content)
           && WellFormed(l)
           && ExtractDomain(l.url) == ExtractDomain(sourceUrl)
           && ClassifyUrl(l.url) != Catalog
           && ParseUrl(l.url).Some?
           && (ClassifyUrl(l.url) == Product || |Segments(ParseUrl(l.url).value.pathname, '/')| >= 2)
  {
    KeepLinksFacts(MarkdownLinks(content), ExtractDomain(sourceUrl));
    LinksFromWellFormed(content, 0);
  }

  lemma KeepLinksFacts(ms: seq<Link>, d: string)
    requires KeepLinks(ms, d).Ok?
    ensures var r := KeepLinks(ms, d).value;
      |r| <= 3 && UniqueKeys(r, LinkUrl) && forall l :: l in r ==> l in ms && Eligible(l, d)
  {
    var f := Filter(ms, EligibleFor(d));
    var kept := DedupBy(f, LinkUrl, {});
    FilterSound(ms, EligibleFor(d));
    DedupSound(f, LinkUrl, {});
    var r := KeepLinks(ms, d).value;
    assert r == kept[..|r|];
    forall i, j | 0 <= i < j < |r| ensures LinkUrl(r[i]) != LinkUrl(r[j]) {
      assert r[i] == kept[i] && r[j] == kept[j];
    }
    forall l | l in r ensures l in f {
      assert l in kept;
    }
  }


  /** A URL already kept parses. */
  lemma KeptParses(s: seq<Link>, d: string, url: string)
    requires url in KeySet(Filter(s, EligibleFor(d)), LinkUrl)
    ensures ParseUrl(url).Some?
  {
    var f := Filter(s, EligibleFor(d));
    FilterSound(s, EligibleFor(d));
    var i :| 0 <= i < |f| && LinkUrl(f[i]) == url;
    assert f[i] in f;
  }

  /** The loop's state after the links `before`: the eligible ones, de-duplicated by URL,
      and the set of their URLs. */
  predicate Harvested(before: seq<Link>, sourceDomain: string, links: seq<Link>, seen: set<string>) {
    && links == DedupBy(Filter(before, EligibleFor(sourceDomain)), LinkUrl, {})
    && seen == KeySet(Filter(before, EligibleFor(sourceDomain)), LinkUrl)
  }

  lemma AnyThrowsSnoc(s: seq<Link>, x: Link, sourceDomain: string)
    ensures AnyThrows(s + [x], sourceDomain) <==> AnyThrows(s, sourceDomain) || Throws(x, sourceDomain)
  {
    assert (s + [x])[..|s|] == s;
  }

  /** The body of the harvesting loop for one link, with the checks in the source's
      order; `links` and `seen` are what the loop kept from the links before it. */
  method VisitLink(link: Link, sourceDomain: string, ghost before: seq<Link>, links: seq<Link>, seen: set<string>)
    returns (failed: bool, links': seq<Link>, seen': set<string>)
    requires Harvested(before, sourceDomain, links, seen)
    ensures failed <==> Throws(link, sourceDomain)
    ensures !failed ==> Harvested(before + [link], sourceDomain, links', seen')
  {
    assert EligibleFor(sourceDomain)(link) == Eligible(link, sourceDomain);
    DedupFilterSnoc(before, link, EligibleFor(sourceDomain), LinkUrl);
    KeySetFilterSnoc(before, link, EligibleFor(sourceDomain), LinkUrl);
    failed, links', seen' := false, links, seen;
    if ExtractDomain(link.url) != sourceDomain {
      return;
    }
    if link.url in seen {
      KeptParses(before, sourceDomain, link.url);
      assert seen + {link.url} == seen;
      return;
    }
    if ClassifyUrl(link.url) == Catalog {
      if ParseUrl(link.url).None? {
        UnparsableIsUnknown(link.url);
      }
      return;
    }
    var parsed := ParseUrl(link.url);
    if parsed.None? {
      failed := true;
      return;
    }
    var pathParts := Segments(parsed.value.pathname, '/');
    if ClassifyUrl(link.url) == Product || |pathParts| >= 2 {
      seen' := seen + {link.url};
      links' := links + [link];
    }
  }

  /** `extractProductLinksFromCatalog`: goes through the page's links in the order the
      global `exec` loop finds them, keeps same-domain, non-catalog, product-or-deep links
      not seen before, and returns the first three. */
  method ExtractProductLinksFromCatalog(content: string, sourceUrl: string) returns (r: Result<seq<Link>>)
    ensures r == CatalogLinks(content, sourceUrl)
  {
    r := HarvestLinks(MarkdownLinks(content), ExtractDomain(sourceUrl));
  }

  /** The loop of `extractProductLinksFromCatalog` over the page's links. */
  method HarvestLinks(matches: seq<Link>, sourceDomain: string) returns (r: Result<seq<Link>>)
    ensures r == KeepLinks(matches, sourceDomain)
  {
    var links: seq<Link> := [];
    var seen: set<string> := {};
    ghost var visited: seq<Link> := [];
    for i := 0 to |matches|
      invariant visited == matches[..i]
      invariant !AnyThrows(visited, sourceDomain)
      invariant Harvested(visited, sourceDomain, links, seen)
    {
      var failed;
      failed, links, seen := VisitLink(matches[i], sourceDomain, visited, links, seen);
      if failed {
        ThrowsAt(matches, sourceDomain, i);
        r := Err("Invalid URL");
        return;
      }
      AnyThrowsSnoc(visited, matches[i], sourceDomain);
      PrefixSnoc(matches, i);
      visited := visited + [matches[i]];
    }
    assert visited == matches;
    HarvestDone(matches, sourceDomain, links, seen);
    r := Ok(if |links| <= 3 then links else links[..3]);
  }

  /** A link that throws fails the whole harvest. */
  lemma ThrowsAt(matches: seq<Link>, sourceDomain: string, i: nat)
    requires i < |matches| && Throws(matches[i], sourceDomain)
    ensures KeepLinks(matches, sourceDomain) == Err("Invalid URL")
  {
    var s := matches[..i + 1];
    assert s[..i] == matches[..i];
    assert AnyThrows(s, sourceDomain);
    AnyThrowsPrefix(matches, i + 1, sourceDomain);
  }

  /** Once every link is visited without a failure, the kept links are the result. */
  lemma HarvestDone(matches: seq<Link>, sourceDomain: string, links: seq<Link>, seen: set<string>)
    requires !AnyThrows(matches, sourceDomain)
    requires Harvested(matches, sourceDomain, links, seen)
    ensures KeepLinks(matches, sourceDomain) == Ok(if |links| <= 3 then links else links[..3])
  {
  }

  // ---------------------------------------------------------------------------
  // Catalog detection from page text

  /** `showing \d+ results` at `s[0]`. */
  predicate ShowingResultsAt(s: string) {
    StartsWith(s, "showing ") &&
    var d := s[8..];
    var n := Run(d, IsDigit);
    n > 0 && StartsWith(d[n..], " results")
  }

  /** `\d+ items? found` ending its digits at `s[0]`: a digit followed by " item found"
      or " items found". */
  predicate ItemsFoundAt(s: string) {
    |s| > 0 && IsDigit(s[0]) && (StartsWith(s[1..], " item found") || StartsWith(s[1..], " items found"))
  }

  /** Which of the six signal expressions match the lower-cased page. */
  function Signals(lower: string): (r: seq<bool>)
    ensures |r| == 6
  {
    [ Contains(lower, "search results"),
      Somewhere(lower, ShowingResultsAt),
      Somewhere(lower, ItemsFoundAt),
      Contains(lower, "sort by"),
      Contains(lower, "filter by"),
      Contains(lower, "refine your search") ]
  }

  /** `signals.filter(...).length` */
  function CountTrue(b: seq<bool>): (n: nat)
    ensures n <= |b|
  {
    if b == [] then 0 else (if b[0] then 1 else 0) + CountTrue(b[1..])
  }

  /** Two different entries of `b` are true. */
  predicate TwoOf(b: seq<bool>) {
    exists i, j :: 0 <= i < j < |b| && b[i] && b[j]
  }

  lemma {:induction false} CountTrueAtLeastTwo(b: seq<bool>)
    ensures CountTrue(b) >= 2 <==> TwoOf(b)
  {
    if b != [] {
      CountTrueAtLeastTwo(b[1..]);
      CountTruePositive(b[1..]);
      if CountTrue(b) >= 2 {
        if b[0] {
          var j :| 0 <= j < |b[1..]| && b[1..][j];
          assert b[j + 1];
        } else {
          var i, j :| 0 <= i < j < |b[1..]| && b[1..][i] && b[1..][j];
          assert b[i + 1] && b[j + 1];
        }
      }
      if exists i, j :: 0 <= i < j < |b| && b[i] && b[j] {
        var i, j :| 0 <= i < j < |b| && b[i] && b[j];
        assert b[1..][j - 1];
        if i > 0 {
          assert b[1..][i - 1];
        }
      }
    }
  }

  lemma {:induction false} CountTruePositive(b: seq<bool>)
    ensures CountTrue(b) >= 1 <==> exists i :: 0 <= i < |b| && b[i]
  {
    if b != [] {
      CountTruePositive(b[1..]);
      if exists i :: 0 <= i < |b| && b[i] {
        var i :| 0 <= i < |b| && b[i];
        if i > 0 {
          assert b[1..][i - 1];
        }
      }
      if CountTrue(b[1..]) >= 1 {
        var i :| 0 <= i < |b[1..]| && b[1..][i];
        assert b[i + 1];
      }
    }
  }

  /** `detectCatalogFromContent`: true exactly when two different signals match. */
  function DetectCatalogFromContent(content: string): bool {
    CountTrue(Signals(Lower(content))) >= 2
  }

  /** The page is taken for a catalog exactly when two different signals match. */
  lemma DetectTwoSignals(content: string)
    ensures DetectCatalogFromContent(content) <==> TwoOf(Signals(Lower(content)))
  {
    CountTrueAtLeastTwo(Signals(Lower(content)));
  }

  /** Upper and lower case give the same verdict. */
  lemma DetectCaseInsensitive(content: string)
    ensures DetectCatalogFromContent(Lower(content)) == DetectCatalogFromContent(content)
  {
    LowerIdempotent(content);
  }

  // ---------------------------------------------------------------------------
  // Product extraction

  /** The JSON a heuristic or a language-model extraction yields; absent fields are None. */
  datatype ExtractedProduct = ExtractedProduct(
    title: Option<string>,
    price: Option<real>,
    currency: Option<string>,
    deliveryEstimate: Option<string>,
    deliveryDays: Option<real>,
    variants: Option<seq<string>>,
    imageUrl: Option<string>,
    inStock: Option<bool>)

  /** What the language model is asked: the item name, the page URL and the page text. */
  datatype Prompt = Prompt(itemName: string, url: string, content: string)

  const MaxPromptContent: nat := 15000

  /** `content.slice(0, 15000)` */
  function Truncate(content: string): (r: string)
    ensures |r| <= MaxPromptContent && |r| <= |content|
    ensures r == content[..|r|]
    ensures |content| <= MaxPromptContent ==> r == content
  {
    if |content| <= MaxPromptContent then content else content[..MaxPromptContent]
  }

  /** `extracted.price` is truthy: present and not 0. */
  predicate HasPrice(x: Option<ExtractedProduct>) {
    x.Some? && x.value.price.Some? && x.value.price.value != 0.0
  }

  /** The success test: a truthy title and a truthy price. A negative price passes. */
  predicate Usable(x: Option<ExtractedProduct>) {
    HasPrice(x) && Truthy(x.value.title)
  }

  /** The candidate built from a usable extraction: a fresh id, all scores 0, no
      explanation, the page URL and its domain, and the defaults for missing fields. */
  function NewCandidate(x: ExtractedProduct, url: string, id: string): (c: Candidate)
    requires Usable(Some(x))
    ensures c.id == id && c.title == x.title.value && c.title != ""
    ensures c.price == x.price.value && c.price != 0.0
    ensures c.currency == (if x.currency.Some? then x.currency.value else "USD")
    ensures c.deliveryEstimate == x.deliveryEstimate && c.deliveryDays == x.deliveryDays
    ensures c.variants == (if x.variants.Some? then x.variants.value else [])
    ensures c.inStock == (x.inStock.None? || x.inStock.value)
    ensures c.imageUrl == x.imageUrl
    ensures c.productUrl == url
    ensures c.retailerDomain == ExtractDomain(url)
    ensures c.retailerName == ExtractRetailerName(ExtractDomain(url))
    ensures c.scores == ZeroScores && c.explanation == ""
  {
    var domain := ExtractDomain(url);
    Candidate(
      id, x.title.value, x.price.value,
      if x.currency.Some? then x.currency.value else "USD",
      x.deliveryEstimate, x.deliveryDays,
      if x.variants.Some? then x.variants.value else [],
      ExtractRetailerName(domain), domain, url, x.imageUrl,
      if x.inStock.Some? then x.inStock.value else true,
      ZeroScores, "")
  }

  /** `extractFromMarkdown`: the model sees at most 15000 characters of the page; its
      answer (None when the call fails or returns null) becomes a candidate when usable. */
  function ExtractFromMarkdown(markdown: string, url: string, itemName: string, id: string,
                               llm: Prompt -> Option<ExtractedProduct>): (r: Option<Candidate>)
    ensures var x := llm(Prompt(itemName, url, Truncate(markdown)));
      && (r.Some? <==> Usable(x))
      && (r.Some? ==> r.value == NewCandidate(x.value, url, id))
  {
    var x := llm(Prompt(itemName, url, Truncate(markdown)));
    if Usable(x) then Some(NewCandidate(x.value, url, id)) else None
  }

  /** Only the first 15000 characters of a page can change what is extracted from it. */
  lemma MarkdownPrefixOnly(m1: string, m2: string, url: string, itemName: string, id: string,
                           llm: Prompt -> Option<ExtractedProduct>)
    requires Truncate(m1) == Truncate(m2)
    ensures ExtractFromMarkdown(m1, url, itemName, id, llm) == ExtractFromMarkdown(m2, url, itemName, id, llm)
  {
  }

  /** `extractProductCandidate`: the heuristic result is used when it has a truthy price;
      otherwise the language model is asked about the truncated HTML. */
  function ExtractProductCandidate(heuristic: Option<ExtractedProduct>, html: string, url: string,
                                   itemName: string, id: string,
                                   llm: Prompt -> Option<ExtractedProduct>): (r: Option<Candidate>)
    ensures HasPrice(heuristic) ==>
      (r.Some? <==> Truthy(heuristic.value.title)) &&
      (r.Some? ==> r.value == NewCandidate(heuristic.value, url, id))
    ensures !HasPrice(heuristic) ==> r == ExtractFromMarkdown(html, url, itemName, id, llm)
  {
    var x := if HasPrice(heuristic) then heuristic else llm(Prompt(itemName, url, Truncate(html)));
    if Usable(x) then Some(NewCandidate(x.value, url, id)) else None
  }
}
