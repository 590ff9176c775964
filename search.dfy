/** Search post-processing for one spec item: the primary query over the retailer
    allow-list, the diversity rule that triggers a supplementary query, the mapping of
    raw hits to search results, and the order-preserving de-duplication by URL.
    The search engine itself is an oracle: its answers are parameters. */
module Search {
  import opened Types
  import opened Seqs
  import Scrape
  import Text

  /** The retailer domains every search is restricted to, in preference order. */
  const RetailerAllowlist: seq<string> := [
    "amazon.com", "walmart.com", "nike.com", "nordstrom.com", "macys.com",
    "dickssportinggoods.com", "rei.com", "target.com", "zappos.com",
    "bestbuy.com", "adidas.com", "underarmour.com"]

  /** A raw hit as the search engine returns it; a missing or null raw content is `None`. */
  datatype Hit = Hit(title: string, url: string, content: string, rawContent: Option<string>, score: real)

  datatype Depth = Basic | Advanced

  /** One request sent to the search engine. */
  datatype SearchRequest = SearchRequest(query: string, depth: Depth, maxResults: nat, includeDomains: seq<string>)

  function BuildSearchQuery(item: SpecItem): string {
    item.name
  }

  /** One hit normalised into a search result. */
  function ToSearchResult(h: Hit): (r: SearchResult)
    ensures r.title == h.title && r.url == h.url && r.description == h.content
    ensures r.rawContent == h.rawContent && r.score == h.score
    ensures Scrape.ParseUrl(h.url).None? ==> r.retailerDomain == ""
    ensures Scrape.ParseUrl(h.url).Some? && Text.StartsWith(Scrape.ParseUrl(h.url).value.hostname, "www.") ==>
      "www." + r.retailerDomain == Scrape.ParseUrl(h.url).value.hostname
    ensures Scrape.ParseUrl(h.url).Some? && !Text.StartsWith(Scrape.ParseUrl(h.url).value.hostname, "www.") ==>
      r.retailerDomain == Scrape.ParseUrl(h.url).value.hostname
  {
    SearchResult(h.title, h.url, h.content, Scrape.ExtractDomain(h.url), h.rawContent, h.score)
  }

  /** `hits.map(toSearchResult)` */
  function MapHits(hs: seq<Hit>): (rs: seq<SearchResult>)
    ensures |rs| == |hs|
    ensures forall i :: 0 <= i < |hs| ==> rs[i] == ToSearchResult(hs[i])
  {
    if hs == [] then [] else [ToSearchResult(hs[0])] + MapHits(hs[1..])
  }

  function ResultUrl(r: SearchResult): string { r.url }

  function ResultDomain(r: SearchResult): string { r.retailerDomain }

  /** The distinct retailer domains among the results. */
  function Retailers(rs: seq<SearchResult>): set<string> {
    KeySet(rs, ResultDomain)
  }

  /** The primary results are too narrow: non-empty but spanning fewer than 3 retailers. */
  predicate NeedsSupplement(rs: seq<SearchResult>) {
    |Retailers(rs)| < 3 && |rs| > 0
  }

  function AbsentFrom(present: set<string>): string -> bool {
    d => d !in present
  }

  /** The first three allow-list domains that no primary result came from. */
  function SupplementaryDomains(present: set<string>): seq<string> {
    Take(Filter(RetailerAllowlist, AbsentFrom(present)), 3)
  }

  function PrimaryRequest(item: SpecItem): SearchRequest {
    SearchRequest(BuildSearchQuery(item), Advanced, 10, RetailerAllowlist)
  }

  function SupplementaryRequest(item: SpecItem, rs: seq<SearchResult>): SearchRequest {
    SearchRequest(item.name + " buy online", Basic, 6, SupplementaryDomains(Retailers(rs)))
  }

  /** The requests issued for an item whose primary search gave `rs`. */
  function Requests(item: SpecItem, rs: seq<SearchResult>): seq<SearchRequest> {
    [PrimaryRequest(item)] + (if NeedsSupplement(rs) then [SupplementaryRequest(item, rs)] else [])
  }

  /** The results before de-duplication: the primary ones, followed by the supplementary
      ones when a supplementary search was issued and answered (`None` means it threw). */
  function Merged(rs: seq<SearchResult>, extra: Option<seq<Hit>>): seq<SearchResult> {
    if NeedsSupplement(rs) && extra.Some? then rs + MapHits(extra.value) else rs
  }

  /** Searches for one item. `primary` is the primary search's hits (a missing hit list is
      empty); `supplementary` is what a supplementary search would answer, `None` when it
      throws. Returns the requests issued and the de-duplicated results. */
  method SearchProductsForItem(item: SpecItem, primary: seq<Hit>, supplementary: Option<seq<Hit>>)
    returns (requests: seq<SearchRequest>, deduped: seq<SearchResult>)
    ensures requests == Requests(item, MapHits(primary))
    ensures deduped == DedupBy(Merged(MapHits(primary), supplementary), ResultUrl, {})
  {
    requests := [PrimaryRequest(item)];
    var results := MapHits(primary);
    var uniqueRetailers := Retailers(results);
    if |uniqueRetailers| < 3 && |results| > 0 {
      var supplementaryDomains := SupplementaryDomains(uniqueRetailers);
      requests := requests + [SearchRequest(item.name + " buy online", Basic, 6, supplementaryDomains)];
      if supplementary.Some? {
        results := results + MapHits(supplementary.value);
      }
    }
    deduped := Dedup(results, ResultUrl, {});
  }

  lemma AllowlistDistinct()
    ensures Distinct(RetailerAllowlist)
  {
  }

  /** The primary query is the item name over the whole allow-list; a second, supplementary
      query is issued exactly when the primary results are non-empty and span fewer than
      3 retailers, and it asks for the item name followed by " buy online". */
  lemma RequestsFacts(item: SpecItem, rs: seq<SearchResult>)
    ensures Requests(item, rs)[0].query == item.name
    ensures Requests(item, rs)[0].includeDomains == RetailerAllowlist
    ensures |Requests(item, rs)| == 2 <==> (rs != [] && |KeySet(rs, ResultDomain)| < 3)
    ensures |Requests(item, rs)| == 2 ==> Requests(item, rs)[1].query == item.name + " buy online"
  {
  }

  /** The supplementary domains are the first (at most) three allow-list domains absent
      from the primary results, in allow-list order: each is absent and on the allow-list,
      an absent domain earlier in the list than a chosen one is chosen too, and when fewer
      than three are chosen, every absent domain is. */
  lemma SupplementaryDomainsFacts(present: set<string>)
    ensures |SupplementaryDomains(present)| <= 3
    ensures forall d :: d in SupplementaryDomains(present) ==> d in RetailerAllowlist && d !in present
    ensures forall i, j ::
              (0 <= i < j < |RetailerAllowlist| && RetailerAllowlist[i] !in present &&
               RetailerAllowlist[j] in SupplementaryDomains(present)) ==>
              RetailerAllowlist[i] in SupplementaryDomains(present)
    ensures |SupplementaryDomains(present)| < 3 ==>
              forall d :: d in RetailerAllowlist && d !in present ==> d in SupplementaryDomains(present)
  {
    AllowlistDistinct();
    TakeFilterFirst(RetailerAllowlist, AbsentFrom(present), 3);
  }

  /** Supplementary results come after all the primary ones; a failed or unneeded
      supplementary search leaves the primary results as they are. */
  lemma MergedFacts(rs: seq<SearchResult>, extra: Option<seq<Hit>>)
    ensures Merged(rs, extra)[..|rs|] == rs
    ensures extra.None? || !NeedsSupplement(rs) ==> Merged(rs, extra) == rs
    ensures NeedsSupplement(rs) && extra.Some? ==> |Merged(rs, extra)| == |rs| + |extra.value|
  {
  }

  /** The URL de-duplication keeps, in order, exactly the first result for each URL: the
      output URLs are unique, every input URL is represented, each kept result is the first
      one with its URL, and de-duplicating again changes nothing. */
  lemma DedupeByUrlFacts(results: seq<SearchResult>)
    ensures UniqueKeys(DedupBy(results, ResultUrl, {}), ResultUrl)
    ensures KeySet(DedupBy(results, ResultUrl, {}), ResultUrl) == KeySet(results, ResultUrl)
    ensures forall r :: r in DedupBy(results, ResultUrl, {}) ==>
              exists j :: 0 <= j < |results| && results[j] == r &&
                forall k :: 0 <= k < j ==> results[k].url != r.url
    ensures DedupBy(DedupBy(results, ResultUrl, {}), ResultUrl, {}) == DedupBy(results, ResultUrl, {})
  {
    DedupSound(results, ResultUrl, {});
    DedupKeys(results, ResultUrl, {});
    DedupFirst(results, ResultUrl, {});
    DedupIdempotent(results, ResultUrl);
  }
}
