# AI Product Buyer: discovery, ranking, cart and checkout in Dafny

AI Product Buyer turns a shopping conversation into a *spec*. A spec is a budget, an
optional delivery deadline and a list of items. For each item the system searches
retailer sites, selects and classifies the result URLs, extracts product candidates from
the pages and ranks them. The user then builds a cart from the ranked candidates and
checks out with one order per retailer. This project models that core and proves what it
promises:

- **Ranking** (`Ranking`, with `Sorting`):
  - the cost and delivery scores and the weighted total;
  - `scoreCandidates` over an array of candidates, sorted in place and stably, cut to
    the top three;
  - the coherence pass that rewrites one dimension of the top picks.
- **Scraping** (`Scrape`):
  - domain extraction and retailer display names;
  - per-retailer URL classification, where a product pattern wins over a catalog
    pattern;
  - the markdown-link harvesting loop over a catalog page;
  - the two-of-six catalog signal detector;
  - when extraction yields a candidate, and how that candidate is built.
- **Search** (`Search`): result mapping, the supplementary query for low retailer
  diversity, and the order-preserving de-duplication by URL.
- **The pipeline** (`RunManager`):
  - `selectUrls`, which takes one hit per retailer first;
  - the product/catalog partition and the reclassification of unknown URLs;
  - Phase A and Phase B extraction;
  - the de-duplication and cap of catalog links;
  - top-pick accumulation and the coherence pass, whose adjustments reach the item
    results because a top pick and its result share one candidate object.
- **Cart** (`Cart`): the per-session cart table as the class `CartStore`, with add,
  remove, swap, lock, check-out and summary; and the cheaper-alternative suggestions of
  `reoptimize`.
- **Checkout** (`Checkout`): grouping by retailer in first-seen order, subtotals and
  grand total rounded to cents, delivery texts, order ids and the autofill preview.
- **Spec service** (`SpecService`): budget allocation by case-insensitive name match,
  spec creation and item refinement.
- **Client** (`Stream`, `AppProvider`):
  - the server-sent-events framing and the reader's blank-line buffering;
  - the `data:` regular expression as the client writes it, and a corrected extraction;
  - the event reducer of `runDiscovery`;
  - the cart reducers.

Language-model replies, search and extract replies, random draws, drawn ids and parsed
JSON enter as parameters (values or functions), so every operation is deterministic in
them. Prices and scores are `real`. `Math.round(x * 100) / 100` is `Text.RoundCents`:
round half up to a whole number of cents.

## Model

| member | source | states |
|---|---|---|
| Ranking.CostScore | src/lib/services/ranking-service.ts:11-15 | The cost score lies in [0, 1]. It is 0.5 when the budget is not positive, 1 for a free offer and 0 at or over budget. In between, score × budget equals the unused budget. |
| Ranking.CostScoreAntitone | src/lib/services/ranking-service.ts:11-15 | A dearer offer never scores higher on cost. |
| Ranking.DeliveryScore | src/lib/services/ranking-service.ts:17-26 | The delivery score lies in [0, 1]. It is 0.5 for unknown days and 0.8 without a deadline. It is 1 exactly when delivery meets the deadline. Otherwise it loses 0.2 per day late, down to 0. |
| Ranking.DeliveryScoreAntitone | src/lib/services/ranking-service.ts:17-26 | Slower delivery never scores higher. |
| Ranking.Total | src/lib/services/ranking-service.ts:4-9 | The weights sum to one: the total of four scores in [0, 1] lies in [0, 1], and four equal scores give that score. |
| Ranking.Examples | src/lib/services/ranking-service.ts:11-26 | Worked values: 50 of 100 gives 0.5; 120 of 100 gives 0; 8 days against a 5-day deadline gives 0.4; no deadline gives 0.8; unknown days give 0.5. |
| Ranking.ScoredFacts | src/lib/services/ranking-service.ts:47-56 | Scoring one candidate changes only its scores. Cost and delivery are the two score functions. Preference and coherence come from the first model entry with the candidate's id, and default to 0.5 when there is none. The total is the weighted sum. |
| Ranking.ApplyDeterministic | src/lib/services/ranking-service.ts:47-56 | The first scoring loop sets cost and delivery of every array element in place and nothing else. |
| Ranking.ApplyModel | src/lib/services/ranking-service.ts:85-95 | The second loop sets preference, coherence and total of every array element from the model's reply. |
| Ranking.RankedFacts | src/lib/services/ranking-service.ts:98 | The sorted candidates are a permutation of the scored input, in non-increasing total, with equal totals kept in input order. |
| Ranking.RankedOrigin | src/lib/services/ranking-service.ts:98 | Every sorted element is the scored form of some input candidate, and the totals do not increase. |
| Ranking.TopFacts | src/lib/services/ranking-service.ts:98-106 | The result has min(3, n) candidates, each the scored form of an input candidate apart from its explanation. They are in non-increasing total, and none is outranked by a candidate that was cut. |
| Ranking.ExplainedKeeps | src/lib/services/ranking-service.ts:100-104 | Attaching explanations changes nothing but the explanation. |
| Ranking.AttachExplanations | src/lib/services/ranking-service.ts:100-104 | Only the first three array elements get an explanation. The loop fails exactly when some explanation call among them fails, because the source does not catch that failure. |
| Ranking.ScoreOutcome | src/lib/services/ranking-service.ts:36-107 | A successful ranking has min(3, n) candidates. A non-empty input fails when the scoring call fails. |
| Ranking.ScoreCandidates | src/lib/services/ranking-service.ts:36-107 | An empty array gives an empty list and is left alone. A failed model call is an error. Otherwise the array is sorted in place, the result is its explained first three, and the rest of the array is the sorted remainder. |
| Ranking.AdjustFacts | src/lib/services/ranking-service.ts:130-142 | A candidate with an adjustment takes the first matching coherence, and its total is recomputed with the same weights. Cost, delivery and preference never change. A candidate without an adjustment is untouched. |
| Ranking.RunCoherencePass | src/lib/services/ranking-service.ts:109-145 | At most one pick leaves the picks unchanged. A failed model call leaves them unchanged and fails. Otherwise each pick is adjusted in place, keeping length and order. |
| Sorting.SortDescInPlace | src/lib/services/ranking-service.ts:98 | The in-place insertion sort leaves the array equal to the stable descending sort of its old contents. |
| Sorting.InsertAt | src/lib/services/ranking-service.ts:98 | One insertion step moves an element into the sorted prefix and leaves the rest of the array alone. |
| Sorting.SortDescFacts | src/lib/services/ranking-service.ts:98 | The stable descending sort is a permutation, is ordered, and keeps the input order among equal keys. That is the contract of the stable `Array.prototype.sort`. |
| Sorting.InsertFacts | src/lib/services/ranking-service.ts:98 | One insertion adds exactly the element, keeps a sorted list sorted, and keeps equal keys in arrival order. |
| Text.RoundCents | src/lib/services/cart-service.ts:158 | `Math.round(x * 100) / 100` is within half a cent of x and is a whole number of cents. |
| Text.Lower | src/lib/services/scrape-service.ts:127 | Lower-casing keeps the length and maps each character on its own. |
| Text.Before | src/lib/services/scrape-service.ts:40 | `s.split(c)[0]` is the longest prefix without `c`. |
| Text.Segments | src/lib/services/scrape-service.ts:114 | `split("/").filter(Boolean)` gives non-empty segments without a slash. |
| Text.SplitOnJoin | src/lib/services/scrape-service.ts:114 | The pieces of `split(c)`, joined again with `c`, give the string back. |
| Text.SegmentsArePieces | src/lib/services/scrape-service.ts:114 | The segments are exactly the non-empty pieces of `split("/")`, in order. |
| Text.NatToString | src/lib/services/checkout-service.ts:101 | A count prints as a non-empty run of digits. |
| Text.NatToStringValue | src/lib/services/checkout-service.ts:101 | `String(n)` spells n in decimal, with no leading zero unless n is 0. |
| Scrape.ParseUrl | src/lib/services/scrape-service.ts:17-23 | A parsed URL has an http or https scheme, a non-empty lower-case host without `:` or `/`, and a path starting with `/`. |
| Scrape.ExtractDomain | src/lib/services/scrape-service.ts:17-23 | The domain is the host with one leading `www.` removed, and "" when the URL does not parse. |
| Scrape.ExtractRetailerName | src/lib/services/scrape-service.ts:25-41 | The twelve mapped domains get their fixed names. Any other domain gives its first dot-separated label with the first character upper-cased, so "" gives "". |
| Scrape.AnyMatches | src/lib/services/scrape-service.ts:79 | `patterns.some(test)` holds exactly when one pattern matches. |
| Scrape.ClassifyUrlPriority | src/lib/services/scrape-service.ts:75-89 | A URL is a product page exactly when a product pattern of its domain matches, whatever the catalog patterns say. It is a catalog page exactly when no product pattern and some catalog pattern matches. Otherwise it is unknown. |
| Scrape.ClassifyDependsOnDomain | src/lib/services/scrape-service.ts:75-89 | A domain outside the tables and an unparsable URL are unknown. Two URLs with the same domain on which the domain's patterns agree get the same class. |
| Scrape.NoPatternsOutsideRetailers | src/lib/services/scrape-service.ts:45-73 | Both pattern tables have entries only for the twelve retailers. |
| Scrape.UnparsableIsUnknown | src/lib/services/scrape-service.ts:75-89 | A URL that does not parse is classified unknown. |
| Scrape.SamePatternsSameClass | src/lib/services/scrape-service.ts:75-89 | Classification depends only on the domain and on the verdicts of that domain's patterns. |
| Scrape.TargetAtFacts | src/lib/services/scrape-service.ts:102 | The URL part of `[title](url)` is followed by `)`, contains none, and is an http or https URL with something after the scheme. |
| Scrape.LinkAtFacts | src/lib/services/scrape-service.ts:102 | A regex match at a position is a well-formed link whose rendering is exactly the matched text. |
| Scrape.ParseRender | src/lib/services/scrape-service.ts:102 | Rendering a well-formed link as `[title](url)` and matching it gives the link back, whatever text follows. |
| Scrape.Exec | src/lib/services/scrape-service.ts:104 | `exec` with the global flag moves strictly forward. |
| Scrape.ExecFinds | src/lib/services/scrape-service.ts:104 | Every match is a well-formed link. |
| Scrape.LinksFromWellFormed | src/lib/services/scrape-service.ts:104 | All the links the loop sees are well-formed. |
| Scrape.VisitLink | src/lib/services/scrape-service.ts:105-118 | One loop pass applies the checks in the source's order. It fails exactly on a same-domain link whose URL does not parse (the source's `new URL` throws). Otherwise it keeps the loop invariant. |
| Scrape.HarvestLinks | src/lib/services/scrape-service.ts:104-121 | The loop's result is the specification `KeepLinks` of the matches. |
| Scrape.ExtractProductLinksFromCatalog | src/lib/services/scrape-service.ts:93-122 | The method computes the catalog links of the page. |
| Scrape.KeepLinksFacts | src/lib/services/scrape-service.ts:109-121 | The kept links number at most three, have no URL twice, and each is an eligible match. |
| Scrape.CatalogLinksFacts | src/lib/services/scrape-service.ts:93-122 | The harvested links number at most three with no URL twice. Each is a link of the page on the page's domain and is never a catalog URL. Each is a product URL or has at least two path segments. |
| Scrape.ThrowsAt | src/lib/services/scrape-service.ts:114 | One throwing link fails the whole harvest. |
| Scrape.HarvestDone | src/lib/services/scrape-service.ts:121 | After the loop, the result is the first three kept links. |
| Scrape.Signals | src/lib/services/scrape-service.ts:128-135 | There are six signals. |
| Scrape.CountTrueAtLeastTwo | src/lib/services/scrape-service.ts:137-138 | Counting at least two true flags is having two different true flags. |
| Scrape.CountTruePositive | src/lib/services/scrape-service.ts:137 | Counting at least one true flag is having one. |
| Scrape.DetectTwoSignals | src/lib/services/scrape-service.ts:126-139 | A page is taken for a catalog exactly when two different signals match its lower-cased text. |
| Scrape.DetectCaseInsensitive | src/lib/services/scrape-service.ts:126-139 | Lower-casing the page first does not change the verdict. |
| Scrape.Truncate | src/lib/services/scrape-service.ts:148 | The prompt gets a prefix of at most 15000 characters, and all of a shorter page. |
| Scrape.NewCandidate | src/lib/services/scrape-service.ts:166-183 | A usable extraction gives a non-empty title and a non-zero price. Currency defaults to USD, variants to none and in-stock to true. The page URL becomes the product URL, its domain the retailer domain and that domain's display name the retailer name. All scores are 0 and there is no explanation. |
| Scrape.ExtractFromMarkdown | src/lib/services/scrape-service.ts:143-187 | A candidate comes out exactly when the model's reply is usable: a title, and a price that is neither missing nor 0. A failed call gives none. |
| Scrape.MarkdownPrefixOnly | src/lib/services/scrape-service.ts:148 | Only the first 15000 characters of a page can change the extraction. |
| Scrape.ExtractProductCandidate | src/lib/services/scrape-service.ts:333-367 | A heuristic result with a truthy price is used as it is, and yields a candidate exactly when its title is truthy. Otherwise the model is asked about the truncated page. |
| Search.ToSearchResult | src/lib/services/search-service.ts:54-63 | A mapped hit keeps title, URL, score and raw content (absent stays absent). Its description is the hit's content. Its retailer domain is the host with one leading `www.` removed when there is one, the host itself when there is none, and "" when the URL does not parse. |
| Search.MapHits | src/lib/services/search-service.ts:54-63 | Mapping keeps length and order. |
| Search.AllowlistDistinct | src/lib/services/search-service.ts:13-26 | The allow-list names twelve different domains. |
| Search.RequestsFacts | src/lib/services/search-service.ts:44-89 | The query is the item name, restricted to the allow-list. A second query "<name> buy online" is sent exactly when the primary results are non-empty and span fewer than three retailers. |
| Search.SupplementaryDomainsFacts | src/lib/services/search-service.ts:77-80 | The supplementary domains number at most three. They are allow-listed domains absent from the results, taken in allow-list order. When fewer than three are taken, every absent domain is among them. |
| Search.MergedFacts | src/lib/services/search-service.ts:91-105 | Supplementary results come after the primary ones. A failed or unneeded supplementary search leaves the primary results as they are. |
| Search.DedupeByUrlFacts | src/lib/services/search-service.ts:108-114 | De-duplication keeps the first result of each URL, in order. It loses no URL, leaves every URL unique, and changes nothing when applied again. |
| Search.SearchProductsForItem | src/lib/services/search-service.ts:41-118 | The requests issued and the de-duplicated merge of the primary and supplementary results. |
| Seqs.Dedup | src/lib/services/search-service.ts:108-114 | The filter with a `seen` set computes the order-preserving de-duplication. |
| Seqs.DedupSound | src/lib/services/search-service.ts:108-114 | Every kept element comes from the input, no kept key was seen before, and no two kept elements share a key. |
| Seqs.DedupFirst | src/lib/services/search-service.ts:108-114 | Each kept element is the first occurrence of its key. |
| Seqs.DedupKeys | src/lib/services/search-service.ts:108-114 | The keys kept are the input's keys that were not seen before. |
| Seqs.DedupIdempotent | src/lib/services/search-service.ts:108-114 | De-duplicating twice is de-duplicating once. |
| Seqs.Find | src/lib/services/ranking-service.ts:86 | `find` gives nothing exactly when no element passes, and otherwise the first element that passes. |
| Seqs.FilterSplit | src/lib/services/run-manager.ts:37-45 | Two complementary filters split a list: together they hold exactly its elements. |
| Seqs.TakeFilterFirst | src/lib/services/search-service.ts:77-80 | `filter(p).slice(0, n)` keeps elements that pass, and does not skip an earlier passing element for a later one. When it keeps fewer than `n`, it keeps them all. |
| RunManager.ItemsToProcess | src/lib/services/run-manager.ts:22 | The items processed are a prefix of the spec's items: eight by default, `maxItems` when it is not negative, and counted from the end when it is negative, as `slice` does. |
| RunManager.SelectUrls | src/lib/services/run-manager.ts:189-211 | The selection is the hits at the positions chosen by the two passes. |
| RunManager.PickDiverse | src/lib/services/run-manager.ts:193-200 | The first loop chooses the first pass's positions. |
| RunManager.FillRemaining | src/lib/services/run-manager.ts:202-208 | The second loop appends the second pass's positions. |
| RunManager.FirstPassIsDedup | src/lib/services/run-manager.ts:193-200 | The first pass is the de-duplication of the hits by retailer, cut to `max`. |
| RunManager.SecondPassAppends | src/lib/services/run-manager.ts:203-208 | The second pass appends the positions the first pass left out, in input order, until `max` are chosen. |
| RunManager.SelectCount | src/lib/services/run-manager.ts:189-211 | `selectUrls` chooses min(max, n) different positions, so no hit is selected twice. |
| RunManager.SelectShape | src/lib/services/run-manager.ts:189-211 | The selection is the first hit of each retailer, in order, up to `max`, then the other hits in order until `max`. |
| RunManager.SelectDiverse | src/lib/services/run-manager.ts:193-200 | When the hits span at least `max` retailers, the selection is the first hit of each of the first `max` retailers, all retailers different. |
| RunManager.SelectExample | src/lib/services/run-manager.ts:193-200 | Retailers A, A, B, C, A with `max` 3 select the first A, B and C. |
| RunManager.Partition | src/lib/services/run-manager.ts:33-45 | The classification loop sends catalog URLs to one list and product or unknown URLs to the other. |
| RunManager.PartitionFacts | src/lib/services/run-manager.ts:37-45 | Every selected hit lands in exactly one list. Catalog URLs go to the catalog list; product and unknown URLs go to the direct list. |
| RunManager.PhaseA | src/lib/services/run-manager.ts:53-77 | Phase A run page by page gives the candidates of the direct hits and the hits moved to the catalog list. |
| RunManager.ReclassifiedFacts | src/lib/services/run-manager.ts:54-69 | A hit is moved to the catalog list only if it has raw content, its URL is unknown, its extraction failed and its text shows two catalog signals. So a product URL is never moved. |
| RunManager.ExtractAll | src/lib/services/run-manager.ts:113-123 | The extraction loop over the extract reply skips pages without content and keeps the usable candidates. |
| RunManager.CollectLinks | src/lib/services/run-manager.ts:82-92 | The harvesting loop over the catalog list skips pages without content, and fails when a harvest throws. |
| RunManager.LinksToExtractFacts | src/lib/services/run-manager.ts:95-101 | At most six links are extracted, with no URL twice and none the URL of a candidate already extracted. Each is the first harvested link with its URL. |
| RunManager.ExtractLinks | src/lib/services/run-manager.ts:103-127 | The bulk extract of the catalog links, where a failing call is caught and yields nothing. |
| RunManager.PhaseB | src/lib/services/run-manager.ts:79-127 | Phase B harvests, de-duplicates, caps and extracts the catalog links. |
| RunManager.GatherCandidates | src/lib/services/run-manager.ts:30-127 | Selection, classification and both extraction phases for one item. |
| RunManager.ProcessItem | src/lib/services/run-manager.ts:26-177 | The loop body for one item computes its result and its run row. |
| RunManager.ProcessItemShape | src/lib/services/run-manager.ts:151-177 | A processed item's result and row carry the item's id and name, with the name as query and version 1. There are at most three ranked candidates, and the row holds the ranking. |
| RunManager.RunItemsStep | src/lib/services/run-manager.ts:26-178 | Each item extends results and rows by one. It adds a top pick, the item's name and first candidate, exactly when its ranking is non-empty. After the first failure nothing more changes. |
| RunManager.RunItemsFacts | src/lib/services/run-manager.ts:26-178 | One result and one row per processed item, in spec order, with matching ids, query equal to the name and version 1. The top picks are the first candidates of the results that have any. |
| RunManager.StepOk | src/lib/services/run-manager.ts:151-177 | A successful item appends its result and row, and its top pick when it has a candidate. |
| RunManager.ProcessItems | src/lib/services/run-manager.ts:26-178 | The item loop computes the specification of the run over the items. |
| RunManager.AliasAgree | src/lib/services/run-manager.ts:150-183 | Writing the adjusted top picks back into the results they came from is the same as adjusting the first candidate of every result. The coherence pass reaches the results through that sharing. |
| RunManager.WithOwnPicks | src/lib/services/run-manager.ts:150-153 | Writing unchanged top picks back changes no result. |
| RunManager.RecohereFacts | src/lib/services/run-manager.ts:180-183 | The coherence pass changes only the scores of each result's first candidate. |
| RunManager.CoherencePass | src/lib/services/run-manager.ts:180-183 | The coherence step computes the specification `Coherent`. |
| RunManager.RunPipeline | src/lib/services/run-manager.ts:18-187 | `runPipeline` is the item loop followed by the coherence pass. The days until the deadline are given exactly when the spec has a deadline. |
| RunManager.PipelineFacts | src/lib/services/run-manager.ts:18-187 | The rows written are those of the item loop, since they are written before the coherence pass. A failure of an item is the run's failure. With more than one top pick, the run fails exactly when the coherence call fails. A successful run has one result per processed item matching its row. Only first candidates may differ from the rows, and with at most one pick nothing differs. |
| Cart.AddedFacts | src/lib/services/cart-service.ts:28-39 | After adding, the item has exactly one row, the new unlocked one, and it is the last row. Every other item keeps its rows, in order. |
| Cart.WithoutRows | src/lib/services/cart-service.ts:55-58 | Removing leaves no row of the item and keeps every other item's rows, in order. |
| Cart.WithoutSound | src/lib/services/cart-service.ts:55-58 | The rows left are exactly the old rows of other items, and one row per item is kept. |
| Cart.SwappedFacts | src/lib/services/cart-service.ts:76-80 | Swapping changes only the candidate id and snapshot of the item's rows. Rows keep their place and lock, and no row is created. |
| Cart.ToggledFacts | src/lib/services/cart-service.ts:96-100 | Toggling flips the lock of the item's rows and touches nothing else. |
| Cart.ToggleTwice | src/lib/services/cart-service.ts:96-100 | Toggling twice restores the rows. |
| Cart.OperationsKeepOneRow | src/lib/services/cart-service.ts:20-105 | Add, remove, swap and toggle all keep one row per item. |
| Cart.LatestDeliveryFacts | src/lib/services/cart-service.ts:145-151 | There is no estimate exactly when no row has a non-empty one. Otherwise the estimate is that of the last row with a non-empty one. |
| Cart.SummaryFacts | src/lib/services/cart-service.ts:107-164 | Without an active cart the summary is empty, with total 0 and no estimate. Otherwise it lists the rows, and the total is within half a cent of their price sum and a whole number of cents. The remaining budget is 0. |
| Cart.SuggestionForFacts | src/lib/services/cart-service.ts:191-203 | A row gets at most one suggestion. It gets one exactly when its item's latest run has a strictly cheaper candidate with a different id, and the suggestion is the first such candidate. |
| Cart.SuggestionsFrom | src/lib/services/cart-service.ts:184-204 | Each suggestion belongs to a visited row, and each row gives at most one. |
| Cart.SuggestionsOrdered | src/lib/services/cart-service.ts:177-204 | Rows visited most expensive first give suggestions in non-increasing current price. |
| Cart.SuggestionsUnique | src/lib/services/cart-service.ts:184-204 | With one row per item, no item gets two suggestions. |
| Cart.ReoptimizedFacts | src/lib/services/cart-service.ts:166-206 | Within budget there are no suggestions. Over budget only unlocked rows are visited, each once, most expensive first. |
| Cart.CartStore.constructor | src/lib/services/cart-service.ts:5-18 | The store starts with no active carts. |
| Cart.CartStore.GetOrCreateCart | src/lib/services/cart-service.ts:5-18 | The session's active cart is returned unchanged. Without one, a new empty cart is created and returned. |
| Cart.CartStore.AddToCart | src/lib/services/cart-service.ts:20-44 | The session's cart, created when missing, has the item's rows replaced by one new unlocked row. The summary is returned and one row per item is kept. |
| Cart.CartStore.RemoveFromCart | src/lib/services/cart-service.ts:46-63 | Without an active cart nothing changes. Otherwise the item's rows are deleted. |
| Cart.CartStore.SwapInCart | src/lib/services/cart-service.ts:65-85 | Without an active cart nothing changes. Otherwise the item's rows take the new candidate. |
| Cart.CartStore.ToggleLock | src/lib/services/cart-service.ts:87-105 | Without an active cart nothing changes. Otherwise the item's rows flip their lock. |
| Cart.CartStore.CheckOut | src/lib/services/checkout-service.ts:115-119 | The checked-out cart is no longer any session's active cart. |
| Cart.CartStore.GetCartSummary | src/lib/services/cart-service.ts:107-164 | The summary loop computes the summary of the session's active cart. |
| Cart.CartStore.Reoptimize | src/lib/services/cart-service.ts:166-206 | The suggestion loop computes the suggestions for the session's cart summary. |
| Checkout.GroupByRetailer | src/lib/services/checkout-service.ts:39-46 | The grouping loop yields the domains in first-seen order, and each domain's rows in cart order. |
| Checkout.RetailersDistinct | src/lib/services/checkout-service.ts:39-46 | No domain is listed twice. |
| Checkout.RetailersCover | src/lib/services/checkout-service.ts:39-46 | The domains listed are exactly those of the rows. |
| Checkout.GroupsNonEmpty | src/lib/services/checkout-service.ts:39-46 | A listed domain's group is not empty. |
| Checkout.GroupMembers | src/lib/services/checkout-service.ts:39-46 | A group holds only rows of the cart with that domain. |
| Checkout.GroupsPartition | src/lib/services/checkout-service.ts:39-50 | The groups, in key order, hold exactly the rows of the cart. |
| Checkout.GroupedKeys | src/lib/services/checkout-service.ts:39-50 | Each key of the grouping dictionary has a non-empty group. |
| Checkout.GroupedPlans | src/lib/services/checkout-service.ts:48-90 | Plans built from the grouping dictionary are the retailer plans of the rows. |
| Checkout.JoinEmpty | src/lib/services/checkout-service.ts:70 | The joined variants are empty exactly for no variants or a single empty one. |
| Checkout.VariantFacts | src/lib/services/checkout-service.ts:70 | A line reads "Standard" exactly for no variants, a single empty one, or a join that reads "Standard". A single variant reads as itself. |
| Checkout.Lines | src/lib/services/checkout-service.ts:67-71 | One line per row of the group, in order. |
| Checkout.EstimatedDelivery | src/lib/services/checkout-service.ts:57-62 | The delivery loop computes the group's delivery text. |
| Checkout.GroupDeliveryFacts | src/lib/services/checkout-service.ts:57-62 | With no row estimate the text is "3-5 business days". Otherwise it is the non-empty estimate of the last row that has one. |
| Checkout.CharIndex | src/lib/services/checkout-service.ts:28 | A draw in [0, 1) picks one of the 36 characters. |
| Checkout.GenerateOrderId | src/lib/services/checkout-service.ts:24-31 | The order-id loop computes the id of twelve draws. |
| Checkout.OrderIdShape | src/lib/services/checkout-service.ts:24-31 | Every order id has twelve characters, each an upper-case letter or a digit. |
| Checkout.RetailerPlans | src/lib/services/checkout-service.ts:48-90 | There is one plan per retailer. |
| Checkout.BuildPlans | src/lib/services/checkout-service.ts:48-90 | Plan `k` is built from the `k`-th key's group. |
| Checkout.BuildPlan | src/lib/services/checkout-service.ts:50-89 | One retailer's plan, with its delivery loop and its order-id loop. |
| Checkout.GenerateCheckoutPlan | src/lib/services/checkout-service.ts:33-113 | `generateCheckoutPlan` computes the plan specification. |
| Checkout.PlanFacts | src/lib/services/checkout-service.ts:48-101 | One plan per retailer in first-seen order. Each plan is named after its first row and lists its group's titles and prices. Each plan has a subtotal within half a cent of the group's sum, a twelve-character order id and six autofill fields. The grand total is within half a cent of the sum of the subtotals. The timeline is the single plan's estimate, or "N separate orders, delivery varies by retailer". |
| SpecService.MatchFacts | src/lib/services/spec-service.ts:149-153 | Names equal up to case match, and an empty name matches every item, since every string contains the empty one. |
| SpecService.PercentageFacts | src/lib/services/spec-service.ts:149-154 | The percentage is that of the first matching allocation, and the even share 1/n when none matches. |
| SpecService.AllocateFacts | src/lib/services/spec-service.ts:127-164 | An empty item list comes back unchanged, and a failed model call with items is an error. Otherwise the items keep length, order and every field but the allocation. Each allocation is within half a cent of budget × percentage. |
| SpecService.NewItems | src/lib/services/spec-service.ts:86-106 | One new item per extracted item, in order. |
| SpecService.CreateSpecFromChat | src/lib/services/spec-service.ts:30-125 | The creation loop computes the spec specification. |
| SpecService.SpecFromChatFacts | src/lib/services/spec-service.ts:30-125 | Creation fails exactly when the extraction fails, or when there are items and the allocation call fails. A created spec is finalized, with the given ids and the extracted budget and deadline. It has one item per extracted item, in order, with that item's name and constraints, unlocked. Each allocation is the budget times the item's percentage, rounded to cents. |
| SpecService.UpdateItemFacts | src/lib/services/spec-service.ts:166-207 | A missing row gives "Item <id> not found". The result fails exactly when the row is missing or the model fails. Otherwise the item keeps its id, allocation and lock and takes name and constraints from the reply. |
| Stream.FirstSep | src/components/AppProvider.tsx:199 | The separator search finds a `\n\n`, or reaches the end. |
| Stream.FirstSepIsFirst | src/components/AppProvider.tsx:199 | No separator starts before the one found. |
| Stream.SplitFacts | src/components/AppProvider.tsx:199 | `split("\n\n")` gives pieces without a separator that join back to the text. |
| Stream.SplitAppend | src/components/AppProvider.tsx:198-200 | Appending text changes only the last piece, which is split again together with the appended text. |
| Stream.ReadStep | src/components/AppProvider.tsx:198-200 | Reading one more chunk hands on the pieces completed by the buffer plus the chunk. |
| Stream.ReadFrames | src/components/AppProvider.tsx:190-202 | The reading loop hands on every complete frame of the text read, in order, and keeps the unfinished tail. |
| Stream.ChunkingIrrelevant | src/components/AppProvider.tsx:198-200 | Two chunkings of the same text give the same frames and the same tail. |
| Stream.FramesGrow | src/components/AppProvider.tsx:198-202 | Later chunks only add frames. |
| Stream.WrittenSplit | src/app/api/run-plan/route.ts:48-51 | Events whose JSON text has no line feed come out of the splitter as one frame each, in order, with nothing buffered. |
| Stream.NoDataLine | src/components/AppProvider.tsx:203-204 | A frame without a line starting with `data:` yields no JSON text. |
| Stream.DataPayloadRoundTrip | src/components/AppProvider.tsx:203 | The regular expression gives a written frame's JSON text back when it holds no line terminator. |
| Stream.DataPayloadStopsAtTerminator | src/components/AppProvider.tsx:203 | The text of a `data:` line ends at its first line terminator, whatever follows. |
| Stream.DataPayloadCutsAtLineSeparator | src/components/AppProvider.tsx:203 | For an `error` event whose message holds U+2028, which `JSON.stringify` leaves unescaped, the regular expression returns the JSON text cut inside the message. |
| Stream.FramePayloadFacts | src/components/AppProvider.tsx:203 | The corrected extraction gives every written frame's JSON text back, and nothing for a frame not starting with `data:`. |
| Stream.StreamRoundTrip | src/app/api/run-plan/route.ts:48-51 | Whatever the chunking, reading what the writer wrote gives back every event's JSON text, in order, with nothing left buffered. |
| AppProvider.WithStepFacts | src/components/AppProvider.tsx:227 | The named step takes the new status; the other two keep theirs. |
| AppProvider.ItemStepFacts | src/components/AppProvider.tsx:213-231 | A step event changes only the named step of the named item, creating an all-pending entry when it is absent. Other items and the rest of the state are unchanged. |
| AppProvider.ItemCompleteFacts | src/components/AppProvider.tsx:232-244 | A completion event appends exactly one result built from the event and changes nothing else. |
| AppProvider.StopFacts | src/components/AppProvider.tsx:206-266 | `done` clears loading and stops. `error` clears loading, records the message and stops. The JSON text `null` parses, reading its `type` throws, and the run's catch clears loading and records "Failed to run discovery". Other events read on. |
| AppProvider.SkippedFrames | src/components/AppProvider.tsx:203-211 | With the frame read by `/^data:\s*(.+)$/m`: a frame the expression finds no text in (in particular one with no line starting with `data:`), or whose text does not parse, leaves the state unchanged. Any other frame applies its parsed event. |
| AppProvider.ApplyFramesAppend | src/components/AppProvider.tsx:202-256 | Frames are consumed one after the other, and nothing after a stop has any effect. |
| AppProvider.ResultsInArrivalOrder | src/components/AppProvider.tsx:232-244 | While the run reads on, the results are the old ones followed by one per completion event, in arrival order. A completion event is a frame whose text, as the regular expression extracts it, parses to `item-complete`. |
| AppProvider.StoppedNotLoading | src/components/AppProvider.tsx:245-254 | A stopped run is no longer loading. |
| AppProvider.InitialProgressFacts | src/components/AppProvider.tsx:162-169 | Every spec item gets an entry with its id and name and all three steps pending. |
| AppProvider.InitialProgress | src/components/AppProvider.tsx:162-169 | The initialisation loop computes that map. |
| AppProvider.ConsumeFrames | src/components/AppProvider.tsx:202-256 | The inner loop reads each frame of one read with the regular expression, applies the frames in order and stops at a stop event. |
| AppProvider.RunDiscovery | src/components/AppProvider.tsx:159-267 | `runDiscovery` reads the response chunk by chunk and applies its frames, each read with the regular expression. |
| AppProvider.DiscoveryFacts | src/components/AppProvider.tsx:159-267 | Without a spec nothing changes. Otherwise loading ends, and a failed request records "Failed to run discovery". A run no event stopped has one result per completion event, in order. |
| AppProvider.ErrorMessageLost | src/components/AppProvider.tsx:203-211 | A stream whose only event is an `error` event with U+2028 in its message ends with loading cleared, no error recorded and no results. The cut text fails to parse and the frame is skipped. |
| AppProvider.ToggleLockFacts | src/components/AppProvider.tsx:357-374 | Without a cart nothing changes. Otherwise exactly the item's rows flip and the rest of the state is unchanged. Toggling twice restores the state. |
| AppProvider.CartReplyFacts | src/components/AppProvider.tsx:269-355 | A cart reply replaces the cart, with remaining budget = spec budget (0 without a spec) − total. A failed request only records its own message. An `{ error }` reply changes nothing, so its message is lost. |

## Left out

- Language-model calls (spec extraction, budget allocation, scoring, explanations,
  coherence, product extraction) are parameters. Each is an `Option` or `Result`
  that is empty when the call fails.
- The Tavily search and extract client, `fetchProductPage` (network with a 10-second
  timeout), SQL (`db.ts`, the schema), `uuidv4`, `Math.random` and the wall clock are
  parameters too:
  - hit lists, extract replies and page contents are values;
  - the id of an extracted candidate is a function of the item id and the page URL;
  - random draws are a function from draw number to [0, 1);
  - days until the deadline are a number, since `getDaysUntilDeadline` reads the clock.
- `Promise.all` concurrency in Phase A and Phase B is run sequentially. Under concurrency,
  the order of reclassified catalog pushes depends on completion order; the model
  takes input order.
- `tryCheerioExtraction` (cheerio and JSON-LD) and its price-text rule are not part of
  this model. The heuristic result is an input of `Scrape.ExtractProductCandidate`.
- Scrape.ExtractProductCandidate: the source copies `variants` and `inStock` unchanged on
  this path, so a model reply that omits them leaves them undefined. The candidate type
  here has no undefined, so the model uses the defaults of `extractFromMarkdown` (no
  variants, in stock).
- Scrape.ExtractProductCandidate: the HTML prompt of `llmExtraction` and the markdown
  prompt of `extractFromMarkdown` are one model function over (item name, URL, truncated
  content).
- Scrape.ParseUrl: a simplified WHATWG parser. It takes only `http://` and `https://`,
  ends the host at `/`, `?` or `#`, drops the port and lower-cases ASCII. It does not
  model user info, IDNA, percent-encoding, backslashes or other schemes.
- Text.Lower: ASCII case folding only, where `toLowerCase` folds all of Unicode.
- Scrape patterns: the per-retailer regular expressions are written out as predicates
  on the URL string.
- IEEE floating point is not modelled: prices and scores are `real`, and rounding to
  cents is exact round-half-up.
- Object.prototype keys (`constructor`, `__proto__`) as retailer domains are not
  modelled: the grouping dictionary is a map.
- Checkout.GroupByRetailer: `Object.entries` lists integer-like keys first, in ascending
  order, and the other keys in insertion order. The model keeps first-appearance order
  for every key, which differs only when a retailer domain looks like an integer.
- Scrape.Truncate: `slice(0, 15000)` counts UTF-16 code units, and the model counts
  characters. A character outside the Basic Multilingual Plane counts twice in the
  source, so the source's prefix can be shorter, or end in half a surrogate pair.
- RunManager.RunPipeline: the search step is the oracle `search`. No requires ties it
  to `Search.SearchProductsForItem`, so the pipeline's contracts hold for any search
  reply, the one that method computes included.
- Database effects that reach no return value are left out: `updated_at` stamps and the
  fire-and-forget allocation UPDATEs. The run rows are modelled as `RunRow` values,
  including the rows already written when a later item fails, but their JSON columns
  are kept as structured values, not serialised text. `getCheckoutSummary` (a read-back
  of the stored plan) is left out.
- The spec's draft status exists only in its first SQL row; the returned spec is always
  finalized.
- SpecService.SpecFromChatFacts: the spec's `preferences`, `mustHaves`, `niceToHaves`
  and `createdAt` are not fields of the model's `ShoppingSpec`. `createSpecFromChat`
  copies the first three from the model reply (spec-service.ts:73-75) and the clock
  gives the fourth. No modelled operation reads them, so no contract says anything
  about them.
- The client's `JSON.parse` is a parameter (`parse`). A reader failure in mid-stream and
  the `TextDecoder` (the chunks are already text) are not modelled.
- UI wiring is not modelled: `addAllTopPicks`, `sendMessage`, `finalizeSpec`,
  `submitCheckout`, phase changes, and interleavings of `setState` updaters from
  concurrent actions.
- Three behaviours of the source that are easy to misread are modelled as written:
  - a failing explanation call is not caught, so `scoreCandidates` fails
    (ranking-service.ts:103);
  - run rows are written before the coherence pass and keep the old scores
    (run-manager.ts:155-183);
  - the search query is the item name alone (search-service.ts:37-39).
- RunManager.PageCandidate: `uuidv4()` draws a fresh id for every extracted candidate.
  Here the id is an oracle of the item id and the page URL. Within one item the
  extracted URLs are distinct, because the search results are deduplicated by URL and
  the catalog links exclude URLs already extracted. Two candidates therefore share an
  id only if two items share an id. The model does not promise distinct ids beyond that.
- Scrape.NewCandidate: a model reply without `deliveryDays` leaves it `undefined` in the
  source (scrape-service.ts:174), and `computeDeliveryScore` tests only `=== null`
  (ranking-service.ts:21). Such a candidate scores 0.8 without a deadline and NaN with
  one, and the NaN makes the sort's comparator inconsistent. The model has no undefined
  and no NaN: a missing value is `None`, scored 0.5 like null.
- AppProvider.CartReplyFacts: on an `{ error }` reply (status 400 or 500 from the cart
  routes) the source's queued updater reads `data.cart.totalCost` of an undefined cart
  and throws when React runs it, outside the `try`. The model keeps the state unchanged;
  the render-time exception itself is not modelled.
- AppProvider.RunDiscovery: the client is modelled as written, with the regular
  expression of AppProvider.tsx:203. The corrected extraction (`Stream.FramePayload`,
  proved in `Stream.StreamRoundTrip`) is not wired into the client.

## Findings

| source | as written | input that shows it | evidently intended | confidence | as-written member | corrected member |
|---|---|---|---|---|---|---|
| src/components/AppProvider.tsx:203 | The frame's JSON text is matched with `/^data:\s*(.+)$/m`. Both `.` and `$` stop at U+2028, which `JSON.stringify` leaves unescaped in strings (src/app/api/run-plan/route.ts:50). `runPipeline` takes no writer (run-manager.ts:18-21), so the stream carries only `done` and `error` events; an error message is the text that can hold the character. | A pipeline error whose message is "a", U+2028, "b": the frame `data: {"type":"error","message":"a\u2028b"}`, with the character itself in place of the escape, yields only `{"type":"error","message":"a`. `JSON.parse` rejects it, the frame is skipped, and the run ends with loading cleared and no error shown. | Every event the writer frames is read back whole, so the error is shown. | not executed | AppProvider.ErrorMessageLost | Stream.StreamRoundTrip |
