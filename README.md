# Portuguese Wikipedia person crawlers and degrees of separation, in Dafny

The repository collects biography pages from the Portuguese Wikipedia into a
directory of HTML files, one per person, and then measures how many links
separate two of the saved people. Five crawlers do the collecting. Each has its
own way of fetching a page, deciding whether the page is about a person, picking
the links to follow and saving the file:

- `wiki_crawler.py` is the first, one-session crawler.
- `optimized_wiki_crawler.py` adds a pool of three sessions, a priority deque and safety limits.
- `final_assignment_crawler.py` adds an "aggressive" classifier, link prioritisation and a rate boost.
- `bypass_wikipedia_crawler.py` walks a fixed list of famous people.
- `parallel_wiki_crawler.py` runs worker threads over one shared queue.

`graus_sep.py` indexes the saved pages by a normalised person name. It builds a
graph of which person's page links to which other person, and answers
"degrees of separation" questions with a depth-limited breadth-first search.

The Dafny project follows that structure:

| module | file | what it holds |
|---|---|---|
| `Seqs`, `Strings` | `seqs.dfy`, `strings.dfy` | sequence and string vocabulary (filter, distinct, take, contains, lower case) |
| `Page` | `page.dfy` | the parsed page every crawler reads, the web as a map from URL to answers, `urljoin`, the life-span title patterns |
| `Sessions` | `sessions.dfy` | the round-robin session pool (`get_session`) |
| `Fetch` | `fetch.dfy` | `make_request`'s retry loop, parametrised by each crawler's policy |
| `Store` | `store.dfy` | the safe file name and the three `save_page` variants |
| `Links` | `links.dfy` | the link-gathering loops the extractors share |
| `Frontier` | `frontier.dfy` | the deque updates (`append`, `appendleft`, with and without the membership test) |
| `WikiCrawler`, `OptimizedCrawler`, `FinalCrawler`, `BypassCrawler`, `ParallelCrawler` | one file each | each crawler's classifier, link extraction, save policy and crawl loop, as a state-transition function and a class whose methods are proved against it |
| `Names` | `names.dfy` | `sanitize_name` (percent-decoding, lower case, strip, character removal, whitespace collapse) and `split` |
| `SixDegrees` | `six_degrees.dfy` | `extract_person_links`, `build_connection_graph`, `find_person`, `bfs_shortest_path`, `calculate_separation_degrees` |

Each crawl loop is modelled twice:

- a pure function of the crawler's state for one pass of the loop (`Body`, `LoopBody`, `Step`, `TryStep`), with lemmas for the invariant it keeps and the progress it makes;
- a `Crawler` class whose fields are the Python object's fields, with methods whose `ensures` tie the new state to that function.

The loop methods then prove termination and the loop's exit condition. The
network is a parameter (`Web`: the answers each URL gives to its first, second, …
request). Regular-expression and HTML queries the model does not spell out are a
`Search` oracle or fields of the parsed `Document`.

## Model

| member | source | states |
|---|---|---|
| `Sessions.Step` | optimized_wiki_crawler.py:93-98 | after one call the index stays inside the pool: it moves to the next session, or back to the first after the last |
| `Sessions.After` | optimized_wiki_crawler.py:93-98 | however many calls are made, the index stays inside the pool |
| `Sessions.SessionPool.constructor` | optimized_wiki_crawler.py:41-48 | a fresh pool of `n` sessions starts at session 0 |
| `Sessions.SessionPool.Next` | optimized_wiki_crawler.py:93-98 | `get_session` returns the current session and advances the index by one, modulo the pool size |
| `Sessions.AfterWithinTurn` | bypass_wikipedia_crawler.py:85-89 | within one turn of the pool, `k` calls after `start` land on `start + k`, wrapped once |
| `Sessions.RoundRobinCovers` | final_assignment_crawler.py:65-68 | any `size` consecutive calls hand out every session exactly once, from any starting index |
| `Fetch.CountsAppend` | final_assignment_crawler.py:70-87 | the requests and rotations of two traces add up |
| `Fetch.AttemptCounts` | final_assignment_crawler.py:72-80 | one attempt sends exactly one request and, under a rotating policy, draws exactly one session |
| `Fetch.NoSendsNoRotations` | final_assignment_crawler.py:70-87 | a trace of pauses alone sends nothing and rotates nothing |
| `Fetch.RetrySendsAtMost` | final_assignment_crawler.py:70-87 | `make_request` sends at most `max_retries` requests; a rotating policy draws exactly one session per request |
| `Fetch.RetrySucceedsIff` | wiki_crawler.py:90-113 | a page is returned exactly when some attempt got status 200, and it is the first such attempt's page, after which nothing more is sent |
| `Fetch.RetryEndsWithSend` | bypass_wikipedia_crawler.py:91-121 | when no wait follows the last attempt, every backoff pause is followed by another request |
| `Fetch.WikiWaitsAfterFinalRateLimit` | wiki_crawler.py:104-106 | unlike the other crawlers, `wiki_crawler.py` still sleeps 5 to 10 s after a 429 on its last attempt |
| `Fetch.RemainingOut` | wiki_crawler.py:90-113 | the `j`-th attempt of the next call gets the web's answer to request number `k + j` of that URL |
| `Fetch.MakeRequest` | bypass_wikipedia_crawler.py:91-121 | the retry loop yields the page, trace and request count of the specification; a rotating policy advances the pool by exactly the number of requests sent, and a non-rotating one leaves it alone |
| `Store.SafeTitleSpec` | optimized_wiki_crawler.py:290-294 | the safe title is the title cut to the length limit, with each forbidden file-name character replaced by `_` and every other character kept |
| `Store.SafeTitleIdempotent` | wiki_crawler.py:269-272 | sanitising a safe title again changes nothing |
| `Store.SlashAndUnderscoreCollide` | parallel_wiki_crawler.py:277-278 | "AC/DC" and "AC_DC" are saved under the same file name |
| `Store.SaveSpec` | optimized_wiki_crawler.py:286-307 | all three save variants make sure the file exists and touch no other file; the keeping variants never replace a file, only the strict one reports an existing file as failure, and the overwriting one always leaves the new page |
| `Store.SavesIdempotent` | bypass_wikipedia_crawler.py:200-213 | saving the same page twice leaves the directory as saving it once; only the strict variant reports the repeat as a failure |
| `Page.ContentFirstPara` | parallel_wiki_crawler.py:124-128 | the first paragraph of the article body exists exactly when the body has a paragraph, and is that paragraph's text |
| `Page.CountSearch` | final_assignment_crawler.py:223 | the number of matching patterns is at most the number of patterns, and is positive exactly when any pattern matches |
| `Page.UrlJoin` | wiki_crawler.py:294 | `urljoin(base_url, link)` keeps an absolute URL, resolves the empty reference to the base URL, and appends any other reference to the base URL without its leading slash |
| `Page.ResolvedArticle` | wiki_crawler.py:225 | an article href resolves to the site origin followed by the href |
| `Page.UrlJoinCanonical` | optimized_wiki_crawler.py:327 | a root-relative path and the matching relative path resolve to the same URL, and resolving a resolved URL changes nothing |
| `Links.ArticleLinks` | wiki_crawler.py:221 | the article-link lookup returns only hrefs of the form `/wiki/<no colon>` that the region holds |
| `Links.Kept` | wiki_crawler.py:222-226 | filtering and resolving hrefs never yields more links than hrefs |
| `Links.ArticleHrefAvoids` | wiki_crawler.py:252-260 | an article href contains none of the namespace markers, since every marker carries a colon |
| `Links.KeptFrom` | wiki_crawler.py:222-226 | every kept link is the resolution of an href the filter accepted |
| `Links.TriggeredLinksFrom` | wiki_crawler.py:231-241 | every gathered link comes from an accepted article anchor of a paragraph whose lower-cased text mentions a trigger word |
| `Links.CappedLinksBound` | optimized_wiki_crawler.py:273-279 | taking at most `n` anchors from each of `k` lists gives at most `n * k` links |
| `Links.CappedLinksKept` | optimized_wiki_crawler.py:273-279 | every capped link is an accepted article href |
| `Links.AppendKept` | wiki_crawler.py:237-241 | the inner anchor loop appends exactly the resolved accepted hrefs, in order |
| `Links.TriggeredLinksSnoc` | wiki_crawler.py:233-241 | handling one more paragraph appends that paragraph's links when it mentions a trigger word, and nothing otherwise |
| `Links.CappedLinksSnoc` | optimized_wiki_crawler.py:274-279 | handling one more list appends that list's capped links |
| `Links.TriggeredLinksPrefix` | wiki_crawler.py:233-241 | the links of the first `i + 1` paragraphs are those of the first `i`, then those of paragraph `i` |
| `Links.CappedLinksPrefix` | optimized_wiki_crawler.py:274-279 | the links of the first `i + 1` lists are those of the first `i`, then those of list `i` |
| `Links.TriggeredLinksStep` | wiki_crawler.py:233-241 | one pass of the paragraph loop keeps "gathered so far = links of the paragraphs seen" |
| `Links.CappedLinksStep` | optimized_wiki_crawler.py:274-279 | one pass of the list loop keeps "gathered so far = links of the lists seen" |
| `Links.CollectTriggered` | wiki_crawler.py:231-241 | the paragraph loop gathers exactly the links of the paragraphs that mention a trigger word, in order |
| `Links.CollectCapped` | optimized_wiki_crawler.py:273-279 | the list loop gathers exactly the first anchors of each list that the filter accepts, in order |
| `Frontier.SplitBy` | optimized_wiki_crawler.py:397-404 | splitting the new links by the priority test is a stable partition |
| `Frontier.PushFrontNewKeepsSuffix` | optimized_wiki_crawler.py:407-409 | `appendleft` of the new links keeps the old deque as a suffix and adds at most one element per link |
| `Frontier.PushFrontNewElems` | optimized_wiki_crawler.py:407-409 | after `appendleft` the deque holds exactly its old elements and the pushed links |
| `Frontier.PushFrontNewNoDup` | optimized_wiki_crawler.py:407-409 | the membership test stops `appendleft` from ever duplicating an element |
| `Frontier.PushBackNewSpec` | optimized_wiki_crawler.py:411-413 | `append` with the membership test keeps the deque as a prefix, adds exactly the links not yet present, each once, and keeps a duplicate-free deque duplicate-free |
| `Frontier.PushBackNewMembership` | optimized_wiki_crawler.py:411-413 | a link is in the deque afterwards exactly when it was before or is among the new links |
| `Frontier.PushBackNewAdded` | optimized_wiki_crawler.py:411-413 | what `append` adds are links of the new links that the deque did not hold, each once |
| `Frontier.PushBackUnvisitedSpec` | wiki_crawler.py:332-334 | without a test against the deque itself, the deque gains exactly the unvisited links, in order, repeats included |
| `Frontier.PushFront` | optimized_wiki_crawler.py:407-409 | the `appendleft` loop computes the specified deque |
| `Frontier.PushBack` | optimized_wiki_crawler.py:411-413 | the `append` loop computes the specified deque |
| `WikiCrawler.MaxPages` | wiki_crawler.py:44 | for any integer target, the page cap is five times the target, but never more than 5000 |
| `WikiCrawler.SeedUrlSpec` | wiki_crawler.py:292-296 | the special case for the empty seed agrees with `urljoin`, and a `wiki/` seed is appended to the base URL |
| `WikiCrawler.SpacedYearRangeWidens` | wiki_crawler.py:143-149 | every life span the other crawlers' title pattern recognises, this crawler's pattern recognises too |
| `WikiCrawler.SpacedEmDashRange` | wiki_crawler.py:143-149 | blanks around the dash and an em dash are accepted here, though the other crawlers' pattern rejects them |
| `WikiCrawler.IsPersonPage` | wiki_crawler.py:115-212 | a page is a person exactly when it has a title without an exclusion term and either a life span in the title, or no non-person infobox field plus two person fields or a biographical first paragraph; the title is returned whenever it exists |
| `WikiCrawler.ExclusionInsideName` | wiki_crawler.py:124-141 | the exclusion terms are substrings, so "Mário de Andrade" is rejected because "mário" contains "rio" |
| `WikiCrawler.IsValidLink` | wiki_crawler.py:248-265 | a link is valid exactly when it starts with `/wiki/` and names none of the ten excluded namespaces |
| `WikiCrawler.ArticleHrefsValid` | wiki_crawler.py:221-224 | every anchor the article-link lookup returns passes the validity filter |
| `WikiCrawler.CategoryLinksSpec` | wiki_crawler.py:218-227 | a category page yields at most 100 links, each the absolute URL of a valid article anchor of the member list |
| `WikiCrawler.ParagraphLinksSpec` | wiki_crawler.py:229-241 | each paragraph link is the absolute URL of a valid article anchor of one of the first five paragraphs that mention a trigger word |
| `WikiCrawler.ExtractedLinksSpec` | wiki_crawler.py:246 | outside a category page the result has at most 30 links, none twice, all paragraph links, and holds them all when there are at most 30 |
| `WikiCrawler.ExtractLinks` | wiki_crawler.py:214-246 | the loops of `extract_links` compute the specified link list |
| `WikiCrawler.FirstFetch` | wiki_crawler.py:302-312 | a URL not yet visited was never requested, so its fetch sees the web's first answers and sends at most three requests |
| `WikiCrawler.CollectSpec` | wiki_crawler.py:318-327 | collecting keeps every person listed once under a visited URL with a file; it counts the page exactly when it is a person whose file name is free |
| `WikiCrawler.VisitOneMore` | wiki_crawler.py:307-308 | visiting a new URL adds one to the visited set |
| `WikiCrawler.VisitSpec` | wiki_crawler.py:304-312 | visiting a new URL keeps the invariant (pages counted = URLs visited, each requested at most three times) and changes neither the deque nor the people |
| `WikiCrawler.ExpandSpec` | wiki_crawler.py:316-334 | expanding a fetched page keeps the invariant, counts at most one person and never passes the target |
| `WikiCrawler.ProcessSpec` | wiki_crawler.py:304-334 | a new URL is visited and counted whatever its fetch gave; the invariant holds and the target is never passed |
| `WikiCrawler.ProcessQueue` | wiki_crawler.py:329-334 | links are appended only after a successful fetch that leaves the count below the target, and then exactly the unvisited ones, in order, queued or not |
| `WikiCrawler.BodySpec` | wiki_crawler.py:298-334 | one pass keeps the invariant and never passes the target; it either drops a visited URL and changes nothing else, or visits one more page |
| `WikiCrawler.Crawler.constructor` | wiki_crawler.py:19-62 | a new crawler keeps the caller's `target_count`, whatever integer it is, has nothing visited, queued or collected, a page cap of `min(5 * target, 5000)`, and the output directory as it finds it |
| `WikiCrawler.Crawler.FetchPage` | wiki_crawler.py:90-113 | the fetch gives the specified outcome and records its requests |
| `WikiCrawler.Crawler.SavePage` | wiki_crawler.py:267-285 | the page is written under its safe title cut to 100 characters unless that file exists, which reports failure |
| `WikiCrawler.Crawler.RecordPage` | wiki_crawler.py:318-327 | classifying and saving a fetched page is the specified collection step |
| `WikiCrawler.Crawler.EnqueueLinks` | wiki_crawler.py:332-334 | the deque gains the unvisited links, in order |
| `WikiCrawler.Crawler.VisitPage` | wiki_crawler.py:307-312 | counting, marking and fetching a URL is the specified visit |
| `WikiCrawler.Crawler.ExpandPage` | wiki_crawler.py:316-334 | collecting and enqueueing is the specified expansion |
| `WikiCrawler.Crawler.LoopPass` | wiki_crawler.py:302-334 | one pass of the loop is the specified loop body |
| `WikiCrawler.Crawler.QueueSeeds` | wiki_crawler.py:292-296 | the deque gains the resolved seeds, in order |
| `WikiCrawler.Crawler.Crawl` | wiki_crawler.py:287-339 | for any integer target the crawl ends, stops only when the deque is empty, the target is reached or the cap is reached, never passes a target or cap it starts at or below, and collects and visits nothing when it starts at or above either |
| `OptimizedCrawler.BirthYearPatternShape` | optimized_wiki_crawler.py:139-140 | the second title date pattern matches wherever the first does, and it needs a word character right after the dash |
| `OptimizedCrawler.OpenLifeSpanNotRecognised` | optimized_wiki_crawler.py:139-140 | "Ana (1950-)" carries no date for this crawler, whatever the pattern's comment says |
| `OptimizedCrawler.IsPersonPageFast` | optimized_wiki_crawler.py:110-191 | a person needs an admitted title; title dates decide; otherwise the infobox must have no critical non-person field, and two critical person fields confirm while one defers to the paragraph check |
| `OptimizedCrawler.ShouldVisitUrl` | optimized_wiki_crawler.py:222-238 | a link is visited exactly when it starts with `/wiki/` and no exclusion pattern matches it |
| `OptimizedCrawler.SmartLinksSpec` | optimized_wiki_crawler.py:240-284 | every extracted link passes `should_visit_url`; a category page yields at most 50 links, any other page a duplicate-free list |
| `OptimizedCrawler.ExtractSmartLinks` | optimized_wiki_crawler.py:240-284 | the loops of `extract_smart_links` compute the specified link list |
| `OptimizedCrawler.EnqueueSpec` | optimized_wiki_crawler.py:396-413 | one enqueueing grows the deque by at most 8 links, adds exactly the first 5 priority links and first 3 others, and never duplicates a link |
| `OptimizedCrawler.PriorityLinksReversed` | optimized_wiki_crawler.py:407-409 | `appendleft` one at a time puts the priority links at the front in reverse order |
| `OptimizedCrawler.Sent` | optimized_wiki_crawler.py:332-333 | a request through the next session counts one more request to that URL and keeps the session index in range |
| `OptimizedCrawler.AcceptKeepsInv` | optimized_wiki_crawler.py:336-353 | accepting a new page keeps the invariant and adds it to the visited pages, leaving the deque and counter alone |
| `OptimizedCrawler.ClassifyNew` | optimized_wiki_crawler.py:345-353 | filing a new page as person or non-person keeps the two classes a partition of the visited pages |
| `OptimizedCrawler.AcceptReportsPerson` | optimized_wiki_crawler.py:345-359 | accepting a page reports a person exactly for a person page, which is then saved and counted among the person pages |
| `OptimizedCrawler.VisitKeepsInv` | optimized_wiki_crawler.py:324-363 | processing a page keeps the invariant and visits at most one new URL; a URL seen before changes nothing |
| `OptimizedCrawler.VisitMarksOnSuccess` | optimized_wiki_crawler.py:329-337 | a URL not visited before is sent one request and is marked visited exactly when its response passes `raise_for_status` |
| `OptimizedCrawler.VisitReportsPerson` | optimized_wiki_crawler.py:324-363 | a person is reported only for a page never visited, accepted by `raise_for_status` and classified as a person; links come only from a page visited now while the target is not met |
| `OptimizedCrawler.StopReason` | optimized_wiki_crawler.py:378-381 | the loop goes on exactly when links wait, the target is not met, the safety limits hold and fewer than 20 failures ran in a row |
| `OptimizedCrawler.LoopBody` | optimized_wiki_crawler.py:383-413 | the loop body always continues the loop |
| `OptimizedCrawler.LoopBodySpec` | optimized_wiki_crawler.py:383-413 | a pass keeps the invariant, visits at most one new page, and either saves a person and resets the failure streak or extends the streak |
| `OptimizedCrawler.RoundSpec` | optimized_wiki_crawler.py:378-413 | a pass never counts beyond the target or visits beyond the page budget, and moves the measure (people still wanted, failures still allowed) down |
| `OptimizedCrawler.Crawler.constructor` | optimized_wiki_crawler.py:16-68 | a new crawler has empty sets, an empty deque, nothing collected, the output directory as it finds it and a fresh pool of three sessions |
| `OptimizedCrawler.Crawler.ProcessSinglePage` | optimized_wiki_crawler.py:324-363 | processing a page is the specified visit |
| `OptimizedCrawler.Crawler.RecordPage` | optimized_wiki_crawler.py:336-359 | recording an accepted page is the specified acceptance |
| `OptimizedCrawler.Crawler.SavePage` | optimized_wiki_crawler.py:286-307 | a page is written under its safe title unless that file exists, and the call reports success either way |
| `OptimizedCrawler.Crawler.EnqueueLinks` | optimized_wiki_crawler.py:396-413 | the deque becomes the specified enqueueing |
| `OptimizedCrawler.Crawler.Iterate` | optimized_wiki_crawler.py:378-413 | one test of the loop condition either stops with its reason and no change, or makes the specified pass |
| `OptimizedCrawler.Crawler.LoopPass` | optimized_wiki_crawler.py:383-413 | one pass is the specified loop body |
| `OptimizedCrawler.Crawler.Run` | optimized_wiki_crawler.py:365-413 | the run ends after at most 21020 passes whatever the web answers, never passes the target or the page budget, and each stop reason holds when reported |
| `OptimizedCrawler.Crawler.QueueSeeds` | optimized_wiki_crawler.py:371-373 | the deque becomes the seed pages |
| `OptimizedCrawler.SeedsDistinct` | optimized_wiki_crawler.py:19-30 | the ten seed pages are distinct |
| `FinalCrawler.ScoreThreshold` | final_assignment_crawler.py:186-188 | the score `strong + 0.5 * weak >= 1.5` is the integer test `2 * strong + weak >= 3` |
| `FinalCrawler.Aggressive` | final_assignment_crawler.py:89-233 | a page is a person exactly when its title has no hard exclusion and it has a title date, a name-shaped title without a place word, or no anti-person field plus a score of 1.5 or a biographical first paragraph |
| `FinalCrawler.PlaceWordInsideName` | final_assignment_crawler.py:133-138 | "Mario Quintana" has the shape of a name, but "mario" contains "rio", so the name stage rejects it |
| `FinalCrawler.IsValidLink` | final_assignment_crawler.py:295-310 | a link is valid exactly when it starts with `/wiki/` and names none of the seven excluded namespaces |
| `FinalCrawler.ArticleHrefsValid` | final_assignment_crawler.py:267-271 | every anchor the article-link lookup returns passes the validity filter |
| `FinalCrawler.PrioritizePermutation` | final_assignment_crawler.py:235-255 | prioritising is a permutation of the links |
| `FinalCrawler.PrioritizeOrder` | final_assignment_crawler.py:235-255 | every priority link comes before every other link |
| `FinalCrawler.PrioritizeStable` | final_assignment_crawler.py:235-255 | each group keeps its relative order |
| `FinalCrawler.PrioritizeNoDup` | final_assignment_crawler.py:235-255 | a duplicate-free list stays duplicate-free |
| `FinalCrawler.FilterAll` | final_assignment_crawler.py:243-253 | when every link passes the test, the priority group is the whole list and the other group is empty |
| `FinalCrawler.FilterNone` | final_assignment_crawler.py:243-253 | when no link passes the test, the priority group is empty and the other group is the whole list |
| `Seqs.FilterNoDup` | final_assignment_crawler.py:243-253 | both groups of a duplicate-free list are duplicate-free |
| `FinalCrawler.PrioritizeLinks` | final_assignment_crawler.py:235-255 | the loop computes the specified prioritised list |
| `FinalCrawler.SmartLinksSpec` | final_assignment_crawler.py:257-293 | at most 30 links, none twice, each the absolute URL of a valid article href |
| `FinalCrawler.RankedFrom` | final_assignment_crawler.py:289-291 | de-duplicating, prioritising and cutting to 30 keeps at most 30 distinct links, all drawn from the input |
| `FinalCrawler.GatheredFrom` | final_assignment_crawler.py:262-287 | every gathered link is the absolute URL of a valid article href |
| `FinalCrawler.ExtractSmartLinks` | final_assignment_crawler.py:257-293 | the loops of `extract_smart_links` compute the specified link list |
| `FinalCrawler.FetchSucceedsKnown` | final_assignment_crawler.py:70-87 | a fetch succeeds only for a URL the web knows, with one of its next three answers |
| `FinalCrawler.AfterFetch` | final_assignment_crawler.py:346 | after a fetch the session index stays inside the pool |
| `FinalCrawler.EnqueueUnseenIsPushBack` | final_assignment_crawler.py:366-369 | appending the unseen links is appending, without repeats, the unvisited links |
| `FinalCrawler.EnqueueUnseenSpec` | final_assignment_crawler.py:366-369 | the deque keeps its order and gains exactly the new links that are neither visited nor queued, each once |
| `FinalCrawler.BoostSpec` | final_assignment_crawler.py:372-385 | on every 15th page, below a 5% rate with fewer than 10 links waiting, the unvisited boost pages go to the front, singers first; a boost page already queued can be queued again |
| `FinalCrawler.RateBelowFivePercent` | final_assignment_crawler.py:373-377 | the percentage test `collected / pages * 100 < 5` is the integer test `collected * 20 < pages` |
| `FinalCrawler.CollectSpec` | final_assignment_crawler.py:350-363 | collecting a newly fetched page keeps the invariant, visits exactly that page, and counts and lists it exactly when it is a person |
| `FinalCrawler.ProcessSpec` | final_assignment_crawler.py:343-385 | processing a new URL keeps the invariant, counts at most one person, and visits a URL the web knows or leaves visited pages and deque alone |
| `FinalCrawler.BodySpec` | final_assignment_crawler.py:337-385 | one pass keeps the invariant, counts at most one person, and visits a new known page or shortens the deque |
| `FinalCrawler.FewerUnvisited` | final_assignment_crawler.py:350 | visiting a known page leaves fewer known pages unvisited |
| `FinalCrawler.ProcessEffects` | final_assignment_crawler.py:343-363 | a new URL is counted and its requests recorded; it becomes visited only after a successful fetch, and is then counted as a person exactly when the classifier says so |
| `FinalCrawler.BodyEffects` | final_assignment_crawler.py:338-348 | a visited URL is dropped without a request; an unvisited one is processed with at most three requests |
| `FinalCrawler.BoostFront` | final_assignment_crawler.py:372-385 | the rate check only ever puts unvisited boost pages in front of the deque |
| `FinalCrawler.ExpandEnqueues` | final_assignment_crawler.py:365-385 | expanding a page appends only unvisited, unqueued links, each once, behind the unchanged deque, with at most unvisited boost pages in front |
| `FinalCrawler.ProcessEnqueues` | final_assignment_crawler.py:365-385 | the back of the deque gains only links of the page that were neither visited nor queued, each once; the front gains only unvisited boost pages |
| `FinalCrawler.Crawler.constructor` | final_assignment_crawler.py:13-38 | a new crawler keeps the caller's `target_count`, has nothing visited, queued or collected, the output directory as it finds it, and a fresh session pool |
| `FinalCrawler.Crawler.FetchPage` | final_assignment_crawler.py:70-87 | the fetch gives the specified outcome and advances the pool once per request |
| `FinalCrawler.Crawler.SavePersonPage` | final_assignment_crawler.py:312-325 | the page is written under its safe title cut to 80 characters, replacing any file of that name |
| `FinalCrawler.Crawler.RecordPage` | final_assignment_crawler.py:350-363 | classifying and saving a fetched page is the specified collection step |
| `FinalCrawler.Crawler.ExpandLinks` | final_assignment_crawler.py:365-385 | enqueueing and the rate check are the specified expansion |
| `FinalCrawler.Crawler.LoopPass` | final_assignment_crawler.py:338-385 | one pass of the loop is the specified loop body |
| `FinalCrawler.Crawler.VisitUrl` | final_assignment_crawler.py:343-385 | counting, fetching, collecting and expanding an unvisited URL is the specified processing step |
| `FinalCrawler.Crawler.QueueStartPages` | final_assignment_crawler.py:333-335 | the deque gains the start pages, in order |
| `FinalCrawler.Crawler.CrawlImproved` | final_assignment_crawler.py:327-392 | for any integer target the crawl ends whatever the web answers, stops only with an empty deque or the target reached, never passes a target it starts below, and collects nothing when it starts at or above it |
| `BypassCrawler.IsPersonSimple` | bypass_wikipedia_crawler.py:145-198 | a page is a person exactly when it has a title and a life span in it, or an infobox with two indicators, or one indicator and a biographical first paragraph |
| `BypassCrawler.NoIndicatorRejects` | bypass_wikipedia_crawler.py:173-194 | an infobox without indicators rejects the page whatever its first paragraph says |
| `BypassCrawler.AfterFetch` | bypass_wikipedia_crawler.py:235 | after a fetch the session index stays inside the pool |
| `BypassCrawler.CollectSpec` | bypass_wikipedia_crawler.py:241-257 | collecting a newly fetched page keeps the invariant, visits exactly that page, and counts and lists it exactly when it is a person |
| `BypassCrawler.TryStepSpec` | bypass_wikipedia_crawler.py:228-257 | one iteration keeps the invariant, counts at most one person under its own new URL, and visits that URL exactly when its fetch succeeded |
| `BypassCrawler.CollectedSpec` | bypass_wikipedia_crawler.py:224-257 | the loop keeps the invariant, never passes a target it starts at or below, and lists each new person under a URL it visited |
| `BypassCrawler.CollectedVisits` | bypass_wikipedia_crawler.py:224-241 | the loop visits only URLs of the paths it walks |
| `BypassCrawler.ShuffledUrls` | bypass_wikipedia_crawler.py:220-224 | a shuffled copy of the famous-people list has the same URLs, so the crawl visits only famous people's pages |
| `BypassCrawler.Crawler.constructor` | bypass_wikipedia_crawler.py:12-27 | a new crawler has nothing visited or collected, the simple classifier, the given target whatever integer it is, and the output directory as it finds it |
| `BypassCrawler.Crawler.FetchPage` | bypass_wikipedia_crawler.py:91-121 | the fetch gives the specified outcome and advances the pool once per request |
| `BypassCrawler.Crawler.SavePage` | bypass_wikipedia_crawler.py:200-213 | the page is written under its safe title cut to 80 characters, replacing any file of that name |
| `BypassCrawler.Crawler.RecordPage` | bypass_wikipedia_crawler.py:241-257 | classifying and saving a fetched page is the specified collection step |
| `BypassCrawler.Crawler.TryPath` | bypass_wikipedia_crawler.py:228-257 | one iteration after the target check is the specified step |
| `BypassCrawler.Crawler.CollectPeople` | bypass_wikipedia_crawler.py:215-266 | the loop is the specified walk over the shuffled list, never passes a target it starts at or below, changes nothing when it starts at or above it, and visits only URLs of that list |
| `ParallelCrawler.IsPersonUltraFast` | parallel_wiki_crawler.py:90-136 | a page is a person exactly when its title has no exclusion term and either a life span, or an infobox whose first 500 characters hold two indicators, or one and a biographical first paragraph |
| `ParallelCrawler.InfoboxHeadDecides` | parallel_wiki_crawler.py:115 | only the first 500 characters of the infobox count: cutting it there changes no verdict |
| `ParallelCrawler.ShouldVisit` | parallel_wiki_crawler.py:166-181 | a link is visited exactly when it starts with `/wiki/`, has no colon and does not contain "Lista_de_" |
| `ParallelCrawler.UrlExclusionsIff` | parallel_wiki_crawler.py:172-173 | the five exclusion markers reduce to the colon and "Lista_de_" |
| `ParallelCrawler.ColonContained` | parallel_wiki_crawler.py:172-173 | containing ":" is having a colon |
| `ParallelCrawler.ArticleHrefAvoidsColon` | parallel_wiki_crawler.py:172-173 | a string without a colon contains no marker that has one |
| `ParallelCrawler.CategoryLinksSpec` | parallel_wiki_crawler.py:138-164 | every category link is an accepted article anchor; the member list wins whenever it gives a link, and the fallback takes at most 30 anchors of the body |
| `ParallelCrawler.ExtractCategoryLinks` | parallel_wiki_crawler.py:138-164 | the loops of `extract_category_links` compute the specified list |
| `ParallelCrawler.BioLinksSpec` | parallel_wiki_crawler.py:248-272 | each bio link is an accepted article anchor of one of the first five paragraphs that mention a biography word |
| `ParallelCrawler.ExtractBioLinks` | parallel_wiki_crawler.py:248-272 | the loops of `extract_bio_links` compute the specified list |
| `ParallelCrawler.NewLinksAccepted` | parallel_wiki_crawler.py:224-228 | every link a worker gathers is a relative article path that the URL filter accepts |
| `ParallelCrawler.FirstRequest` | parallel_wiki_crawler.py:198-206 | a URL not yet visited was never requested, so the worker sees the web's first answer |
| `ParallelCrawler.GetKnown` | parallel_wiki_crawler.py:206-207 | a request gives a page only for a URL the web knows |
| `ParallelCrawler.OneMorePerson` | parallel_wiki_crawler.py:219 | a new person adds one to the people set |
| `ParallelCrawler.OneMoreFile` | parallel_wiki_crawler.py:286-287 | a new file name adds one file |
| `ParallelCrawler.CollectSpec` | parallel_wiki_crawler.py:212-221 | collecting keeps the invariant; the person is counted exactly when the page is one and its file name is free |
| `ParallelCrawler.VisitSpec` | parallel_wiki_crawler.py:199-206 | visiting a new URL requests it once and keeps the invariant |
| `ParallelCrawler.ExpandSpec` | parallel_wiki_crawler.py:209-232 | expanding a page keeps the invariant, counts at most one person and never passes the target |
| `ParallelCrawler.ProcessSpec` | parallel_wiki_crawler.py:196-232 | a new URL is visited and requested once whatever the answer; the invariant holds and the target is never passed |
| `ParallelCrawler.ProcessQueue` | parallel_wiki_crawler.py:223-232 | the queue gains the first ten links of the page, visited or not, after a successful request below the target, and nothing otherwise |
| `ParallelCrawler.UnvisitedKnown` | parallel_wiki_crawler.py:203 | visiting a known URL leaves fewer known URLs unvisited, and an unknown one leaves as many |
| `ParallelCrawler.StepSpec` | parallel_wiki_crawler.py:192-240 | one step keeps the invariant and never passes the target; a visited URL is dropped without a request, an unvisited one is marked and requested once |
| `ParallelCrawler.StepProgress` | parallel_wiki_crawler.py:192-240 | each step visits a URL the web knows, or leaves the known unvisited URLs alone and shortens the queue |
| `ParallelCrawler.Crawler.constructor` | parallel_wiki_crawler.py:18-68 | a new crawler has a target of 1000, the biography sources queued in order, nothing visited or collected, and the output directory as it finds it |
| `ParallelCrawler.Crawler.GetPage` | parallel_wiki_crawler.py:206-207 | one request, whose page is given only when `raise_for_status` passes |
| `ParallelCrawler.Crawler.SavePageSafe` | parallel_wiki_crawler.py:274-292 | the page is written under its safe title cut to 100 characters unless that file exists, which reports failure |
| `ParallelCrawler.Crawler.RecordPage` | parallel_wiki_crawler.py:212-221 | classifying and saving a page is the specified collection step |
| `ParallelCrawler.Crawler.EnqueueLinks` | parallel_wiki_crawler.py:231-232 | the queue gains the first ten links |
| `ParallelCrawler.Crawler.WorkerStep` | parallel_wiki_crawler.py:192-240 | one pass of the worker loop is the specified step |
| `ParallelCrawler.Crawler.RunWorker` | parallel_wiki_crawler.py:183-246 | a lone worker ends whatever the web answers, never passes the target, and stops only with an empty queue or the target reached |
| `Names.Unquote` | graus_sep.py:25-26 | decoding never lengthens the name |
| `Names.UnquotePlain` | graus_sep.py:25-26 | a name without '%' is left as it is |
| `Names.UnquoteEncodedChar` | graus_sep.py:26 | decoding an encoded character gives the character back and goes on with the rest |
| `Names.UnquoteEncode` | graus_sep.py:26 | decoding undoes the href percent-encoding of any text below U+0800, '%' included |
| `Names.AccentedAreWordChars` | graus_sep.py:28 | the listed accented letters are word characters already |
| `Names.DropSpaces` | graus_sep.py:28 | removing leading whitespace leaves a suffix that starts with a non-space |
| `Names.DropTrailingSpaces` | graus_sep.py:28 | removing trailing whitespace leaves a prefix that ends with a non-space |
| `Names.CollapseStart` | graus_sep.py:29 | a collapsed string is empty exactly when the input is, and starts with a space exactly when the input does |
| `Names.CollapseChars` | graus_sep.py:29 | a collapsed string keeps the non-space characters and has only ' ' for whitespace |
| `Names.CollapseSingleSpaces` | graus_sep.py:29 | a collapsed string never has two spaces in a row |
| `Names.StripFrom` | graus_sep.py:28 | every character of a stripped string comes from the string |
| `Names.LowerChars` | graus_sep.py:28 | every character of a lower-cased string is lower case |
| `Names.KeptWordChar` | graus_sep.py:28 | a kept character that is not whitespace is a word character |
| `Names.KeptLowerChars` | graus_sep.py:28 | what the removal keeps from a lower-cased, stripped name is lower case and allowed |
| `Names.NormalizeChars` | graus_sep.py:28-29 | a normalised name holds only spaces and lower-case word characters |
| `Names.SanitizeSpec` | graus_sep.py:23-30 | a sanitised name holds only lower-case word characters and single spaces |
| `Names.SanitizeKeepsEdgeSpace` | graus_sep.py:28-29 | stripping comes before the removal, so "a !" sanitises to "a " with a trailing space |
| `Names.WordPrefix` | graus_sep.py:164-166 | the leading run of non-space characters is a prefix, non-empty when the string starts with a non-space |
| `Names.Words` | graus_sep.py:164-166 | `split()` gives non-empty words without whitespace |
| `SixDegrees.Underscores` | graus_sep.py:94 | replacing underscores keeps the length and leaves no underscore |
| `SixDegrees.FirstRelated` | graus_sep.py:104-111 | the scan returns only an indexed name related to the anchor |
| `SixDegrees.Lookup` | graus_sep.py:99-113 | the lookup gives only a non-empty indexed name |
| `SixDegrees.Mentions` | graus_sep.py:88-114 | every mentioned person is a non-empty indexed name |
| `SixDegrees.FirstRelatedSpec` | graus_sep.py:104-111 | the scan returns the first related name in index order, and nothing exactly when no name is related |
| `SixDegrees.LookupSpec` | graus_sep.py:99-113 | an indexed page name wins over an indexed text, both win over the scan, and an empty name counts as no person |
| `SixDegrees.LinksSpec` | graus_sep.py:86-94 | exactly the anchors that pass the href and text filters are looked up, by their normalised page name and text |
| `SixDegrees.PersonsSpec` | graus_sep.py:88-119 | the result has no duplicates, holds only non-empty indexed names, and holds the person of every anchor the lookup finds |
| `SixDegrees.MentionsFound` | graus_sep.py:113-114 | every person the lookup finds is mentioned |
| `SixDegrees.MentionsAppend` | graus_sep.py:88-114 | the mentions of two runs of anchors are those of the first, then those of the second |
| `SixDegrees.ScanIndex` | graus_sep.py:104-111 | the scan loop with its `break` finds the specified first related name |
| `SixDegrees.Accept` | graus_sep.py:89-97 | one anchor's filters and normalisation give the specified link |
| `SixDegrees.LookupLink` | graus_sep.py:99-111 | one anchor's lookup gives the specified person |
| `SixDegrees.LinksAppend` | graus_sep.py:88-97 | accepting two runs of anchors accepts those of the first, then those of the second |
| `SixDegrees.LinksSnoc` | graus_sep.py:88-97 | accepting one more anchor appends what it contributes |
| `SixDegrees.MentionsListed` | graus_sep.py:113-114 | an accepted anchor adds its lookup's person, if any |
| `SixDegrees.ExtractPersonLinks` | graus_sep.py:68-119 | the anchor loop computes `list(set(...))` of the specified persons |
| `SixDegrees.MentionAllSpec` | graus_sep.py:136-138 | the mentions of one page add exactly the edges from its person to each other person it mentions, keeping the graph well formed |
| `SixDegrees.ConnectSpec` | graus_sep.py:121-138 | the graph has exactly the edges from each page's person to every other person the page mentions, and stays well formed |
| `SixDegrees.CandidatesSpec` | graus_sep.py:157-174 | each tier is searched only when the tiers before it found nothing, and the prefix tier only for a query of more than two characters |
| `SixDegrees.FindNormalizedSpec` | graus_sep.py:150-200 | the result is an indexed name or nothing: the query itself when indexed, the only match without asking, nothing without a match, otherwise the match chosen among the first ten |
| `SixDegrees.MatchingNames` | graus_sep.py:159-161 | the tier loop collects exactly the names that pass the test, in index order |
| `SixDegrees.QueueNeighbour` | graus_sep.py:233-235 | queueing an unvisited neighbour keeps every queued entry a walk from the start through visited people |
| `SixDegrees.MarkReached` | graus_sep.py:234 | marking a reachable person visited leaves one fewer unvisited |
| `SixDegrees.ExtendPath` | graus_sep.py:231-235 | a walk extended by an edge is a walk, and stays free of repeats when the new person is not on it |
| `SixDegrees.Reversed` | graus_sep.py:264 | the reversed path has the same length and the elements in opposite order |
| `SixDegrees.ReversedPath` | graus_sep.py:262-264 | reversing twice gives the path back and keeps its people distinct |
| `SixDegrees.Calculator.constructor` | graus_sep.py:10-21 | the calculator starts with the graph built from all saved pages |
| `SixDegrees.Calculator.BuildConnectionGraph` | graus_sep.py:121-138 | the loops add the specified edges of the given pages |
| `SixDegrees.Calculator.Find` | graus_sep.py:150-200 | the search gives the specified `find_person` answer |
| `SixDegrees.Calculator.FindIn` | graus_sep.py:154-200 | the tier loops give the specified answer for a normalised query |
| `SixDegrees.Calculator.BfsShortestPath` | graus_sep.py:202-237 | the same person gives the one-person path; an unconnected start or unindexed end gives nothing; any path returned runs along the graph from start to end, repeats no one and has at most seven people |
| `SixDegrees.Calculator.DisplayNames` | graus_sep.py:269-275 | each person on the path is shown by their page's name, or as themself when not indexed |
| `SixDegrees.Calculator.SearchBothWays` | graus_sep.py:259-264 | the same person gives the one-person path; two people outside the graph give nothing; a path found either way is a repeat-free walk of at most seven people that starts at the first person and ends at the second |
| `SixDegrees.Calculator.Separate` | graus_sep.py:259-277 | for two found people the answer is a connection or "no connection" and is one `calculate_separation_degrees` may give for them |
| `SixDegrees.Calculator.CalculateSeparation` | graus_sep.py:239-292 | a missing or empty first person gives "first not found" before the second is looked up; two found people always give a connection or "no connection"; the same person gives the one-person path; two people outside the graph are never connected; a connection is a repeat-free walk of at most seven people in one direction or the other, shown from the first person to the second, with degrees one less than its length and at most six |

## Left out

- HTTP, HTML parsing and regular expressions:
  - The network is the `Web` parameter: the answers each URL gives to successive requests.
  - A page is the parsed `Document` record. The title, infobox text, paragraphs, anchors and member list are its fields.
  - Regular expressions the model does not spell out are a `Search` oracle. The patterns spelled out in Dafny are the life-span title patterns, the name shapes of `final_assignment_crawler.py`, `\b`, `should_visit_url` and the href filter.
- Sleeps, random pause lengths and random User-Agent strings. `Fetch` records each pause as its window in milliseconds.
- Randomness:
  - `random.shuffle` in `collect_people` is the `order` parameter. `BypassCrawler.ShuffledUrls` relates it to the famous-people list.
  - The clock of `check_safety_limits` is the `elapsed` parameter, in whole seconds.
- Floating point: rates and scores are integers. `FinalCrawler.ScoreThreshold` and `FinalCrawler.RateBelowFivePercent` prove the integer tests equal to the source's.
- Logging, progress output, statistics files, signal handlers and `finalize`. Also `test_connection`, `update_session_headers`' header contents, `benchmark.py` and `quick_diagnostic.py`.
- Exceptions other than failed requests. A crawler's `try`/`except` around parsing or saving is taken not to fire, and a save never fails for I/O reasons.
- `ParallelCrawler.Crawler.RunWorker`: models one worker running alone. Threads, the lock, the `running` flag, `num_workers`, the result queue and the monitor are left out. So are the overshoot of the target by concurrent workers and the worker's wait on an empty queue, which ends that worker's loop in the model.
- `Page.UrlJoin`: models only the references the crawlers pass (absolute URLs, root-relative and dot-free relative paths, the empty string), not `.`/`..` segments, queries or fragments.
- `Names.Unquote`: decodes `%XX` escapes of ASCII bytes and two-byte UTF-8 sequences. Three- and four-byte sequences and invalid escapes are kept as they are, where Python would decode them or insert U+FFFD.
- `Strings.Lower`, `Strings.LowerChar`, `Strings.IsWordChar`, `Strings.IsSpace`, `Strings.IsDigit`: lower-casing, the `\w` word class (and so `\b`), the `\s` space class and the `\d` digit class of the title-date patterns are defined over ASCII and Latin-1 only; other Unicode letters are neither lowered nor word characters here, and other Unicode decimal digits are not digits. This affects every crawler's `title.lower()` exclusion test and word-boundary patterns, as well as the name sanitising.
- The order of `list(set(...))` is unspecified in Python. The model takes first occurrences in order (`Distinct`), and the contracts that use it speak only of membership, count and absence of duplicates.
- `load_all_pages`: file reading and title extraction are left out. `SixDegrees.Index` is its result, and `ValidIndex` states what it guarantees: each name once, a file for each name, a displayed name for each file.
- `get_statistics`, `debug_person_connections` and `interactive_mode` are not modelled.
- `input()` in `find_person` is the `choice` parameter; input that is not all digits is `None`.
- `SixDegrees.Calculator.BfsShortestPath`: proves that a returned path is a repeat-free walk of at most seven people. It does not prove that the path is a shortest one, or that the search finds a path whenever one of at most six degrees exists.
- `SixDegrees.Calculator.CalculateSeparation`: does not state that a path found from the first person is preferred to one found from the second, because `BfsShortestPath` is specified by the properties of its answer rather than by a function that computes it.
- `SixDegrees.Lookup`: an empty name in the index is related to every anchor and stops the scan with no person. `LookupSpec` states the scan's "nothing found" case only for an index without the empty name.
- Name-pattern branches that return True on both sides (`should_visit_url` in `optimized_wiki_crawler.py` and `parallel_wiki_crawler.py`, and `is_valid_link` in `wiki_crawler.py`) are modelled by their common answer.
