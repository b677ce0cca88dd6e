# spider-crawler, modelled in Dafny

This project models the backend of the spider-crawler SEO tool. It covers the
crawl engine and the deterministic analysers that read the crawl's page records:

- **Crawler** (`Spider.WebsiteCrawler`). A class whose fields change in place:
  - it holds the visited set, the page list, the link set, the image list,
    the backlink map and the broken-link registry;
  - its depth-first `_crawl_recursive` runs within a page budget and a depth
    limit;
  - the anchor and image loops of `_parse_html` classify each link as
    internal, external, untitled or broken, and record backlinks;
  - a final report carries the statistics and the link analysis.
- **SEO audit** (`SeoAudit.SEOAuditor`). Every `_check_*` method appends
  findings to the issue and warning lists. The score is clamped to [0, 100].
- **Page power** (`PagePower`). Capped and tiered scores per page, the power
  level, recommendations, and a ranking with the top 20 pages.
- **Keywords** (`Keywords`). The combined page text, n-gram counting with its
  caps, and the greedy word-overlap clustering.
- **Duplicates** (`Duplicates`). Merging of unordered page pairs that keeps the
  most similar report, ranking with a cap of 50, and the word-set Jaccard
  detector.

Library behaviour is supplied as function-valued inputs:

- `urlparse` (section 3 of RFC 3986) is `parse: string -> Url`, which yields a
  record with six components;
- `urljoin` (section 5.2 of RFC 3986) is `join`;
- the MD5 content hash is `digest`;
- the HTTP fetch is `fetch: string -> Option<Response>`, where `None` is a
  failed fetch;
- the parsed HTML is a `Doc` value;
- RAKE and the TF-IDF vectoriser are `rake` and `tfidf`;
- the MinHash and cosine detectors are `minhash` and `cosine`.

Python dictionaries whose order matters are association lists
(`seq<(K, V)>`, in module `Dicts`). `Put` replaces a value in place and
appends a new key at the end, as a Python dict does.

Modules:

| file | module | contents |
|---|---|---|
| `wrappers.dfy` | `Wrappers` | `Option`, `Result`, `Min`, `Max` |
| `text.dfy` | `Text` | whitespace, `strip`, `split`, `join`, `lower` |
| `dicts.dfy` | `Dicts` | association lists, `Counter`-style tallies |
| `sorting.dfy` | `Sorting` | sorting by a key, non-increasing |
| `urls.dfy` | `Urls` | URL records, `_normalize_url`, the base domain |
| `pages.dfy` | `Pages` | the page, link, image and backlink records |
| `extract.dfy` | `Extract` | per-anchor classification and the page record `_parse_html` builds |
| `crawlreport.dfy` | `CrawlReport` | `_calculate_stats` and the link analysis of `crawl` |
| `spider.dfy` | `Spider` | `WebsiteCrawler` |
| `seo_audit.dfy` | `SeoAudit` | `SEOAuditor` |
| `page_power.dfy` | `PagePower` | `PagePowerAnalyzer` |
| `keywords.dfy` | `Keywords` | `KeywordAnalyzer` |
| `duplicates.dfy` | `Duplicates` | `DuplicateDetector` |

In these details the model follows the code:

- `_normalize_url` strips every trailing `/` from the path, not just one.
- `internal_links` is built from a set, so the order of the first 20 followed
  links is unspecified. `ParseHtml` picks an arbitrary duplicate-free
  enumeration of the candidates (`Extract.Enumerates`; `Extract.Dedup` only
  shows that one exists), and every property is proved for any such order.
- The crawl frontier is stated as `Spider.Reached`: every URL a crawl visits
  is the seed's normal form or the normal form of one of the first 20
  `internal_links` of a page it recorded. Those links are the page's
  candidates (`Extract.Candidates`): unvisited when the page was parsed and
  under the base domain.
- A crawl that stores no page is not an error. The statistics are then `{}`,
  which is `None` here.
- `backlinks_map` filters out empty lists, but no list in `backlinks` is ever
  empty, so the returned map equals `backlinks`
  (`CrawlReport.NonEmptyBacklinksIdentity`).
- A fetch that fails still uses up its URL in `visited`. A 4xx or 5xx response
  is still parsed into a page record. So the visited URLs with a page are
  exactly those whose fetch succeeded (`Spider.FetchedPages`).

## Model

| member | source | states |
|---|---|---|
| Urls.RStripSlash | backend/app/crawler/spider.py:360 | `rstrip('/')` keeps a prefix of the path that does not end in `/`, and removes only `/` characters |
| Urls.RStripSlashAppend | backend/app/crawler/spider.py:360 | appending any number of `/` to a path does not change its stripped form |
| Urls.RStripSlashIdempotent | backend/app/crawler/spider.py:360 | stripping twice is stripping once |
| Urls.BaseDomain | backend/app/crawler/spider.py:38-41 | a seed with an empty scheme or netloc has no base domain; otherwise the base domain `scheme://netloc` is a prefix of the seed's normal form |
| Urls.NormalizeIgnoresFragmentAndParams | backend/app/crawler/spider.py:356-363 | the normal form does not depend on `;params` or `#fragment` |
| Urls.NormalizeIgnoresTrailingSlashes | backend/app/crawler/spider.py:356-363 | URLs that differ only in trailing slashes of the path normalise equal |
| Urls.NormalizeKeepsQuery | backend/app/crawler/spider.py:361-362 | with the same scheme, netloc and stripped path, two URLs normalise equal iff their queries are equal |
| Urls.NormalizedPartsIdempotent | backend/app/crawler/spider.py:356-363 | normalising the components twice equals normalising them once, and the components give the same normal form |
| Urls.NormalizeUrlIdempotent | backend/app/crawler/spider.py:356-363 | if the parser reads a normal form back as its components, then `_normalize_url` is idempotent |
| Pages.InternalExternalSplit | backend/app/crawler/spider.py:349-350 | the internal and external link lists partition the page's links by the `internal` flag, and their lengths add up to the number of links |
| Extract.Links | backend/app/crawler/spider.py:252-274 | the page gets one link record per anchor |
| Extract.LinkUrlsSnoc | backend/app/crawler/spider.py:275 | each anchor adds its absolute URL to the crawler's link set |
| Extract.AnchorsSnoc | backend/app/crawler/spider.py:252-309 | one more anchor extends the link, candidate, external, broken and backlink results by exactly that anchor's contribution |
| Extract.Candidates | backend/app/crawler/spider.py:277-281 | each candidate link was unvisited when the page was parsed and starts with the base domain |
| Extract.Dedup | backend/app/crawler/spider.py:345 | `list(set(...))` gives a duplicate-free list with exactly the same elements |
| Extract.EmptyHrefIsBroken | backend/app/crawler/spider.py:304-309 | an empty href is flagged "Empty href" |
| Extract.FragmentHrefVerdict | backend/app/crawler/spider.py:295-303 | `#x` is flagged as a broken anchor iff no element has id or name `x` |
| Extract.ScriptSchemesNeverFlagged | backend/app/crawler/spider.py:294-298 | `javascript:`, `mailto:` and `tel:` hrefs are never flagged |
| Extract.BrokensCount | backend/app/crawler/spider.py:293-309 | each flagged anchor gives exactly one broken entry; every entry comes from this page and carries one of its link records |
| Extract.AddBacklinksSpec | backend/app/crawler/spider.py:277-289 | after the parse, each key's backlink list is the old list followed by one entry per internal anchor under that key, in anchor order; a key is present iff it was present before or gained an entry |
| Extract.AddBacklinksNonEmpty | backend/app/crawler/spider.py:283-289 | backlink lists never become empty |
| Extract.KeysOf | backend/app/crawler/spider.py:277-279 | gives each anchor's backlink key, in anchor order: its normal form if it is internal and under the base domain, otherwise none |
| Extract.EntriesForCount | backend/app/crawler/spider.py:285-289 | a key gains as many backlinks as there are anchors with that key, each one from this page |
| Extract.OtherSchemeNoBacklink | backend/app/crawler/spider.py:259-279 | a link to the site's own netloc under any other scheme (an `http` link on an `https` site) counts as internal but gets no backlink, because its normal form does not start with the base domain |
| Extract.ExtractionDeterministic | backend/app/crawler/spider.py:334-354 | two extractions of the same markup agree on every field; their `internal_links` hold the same elements and have the same length |
| CrawlReport.CountTitled | backend/app/crawler/spider.py:387 | at most every page has a title |
| CrawlReport.CountWithMeta | backend/app/crawler/spider.py:388 | at most every page has a meta description |
| CrawlReport.CountTitledIndices | backend/app/crawler/spider.py:387 | `pages_with_title` is exactly the number of pages with a non-empty title |
| CrawlReport.CountWithMetaIndices | backend/app/crawler/spider.py:388 | `pages_with_meta` is exactly the number of pages with a non-empty meta description |
| CrawlReport.StatusCodes | backend/app/crawler/spider.py:393-394 | gives every page's status code, in page order |
| CrawlReport.StatsAverage | backend/app/crawler/spider.py:400 | the average word count times the page count is the total word count |
| CrawlReport.StatsProperties | backend/app/crawler/spider.py:379-407 | the stats are empty iff no page was crawled; otherwise `total_pages` is the page count, the title and meta counts are at most that, the status histogram has distinct codes, counts each code's pages, and its counts sum to `total_pages` |
| CrawlReport.UntitledOnly | backend/app/crawler/spider.py:78-79 | the untitled filter keeps at most every link |
| CrawlReport.LinkFiltersSnoc | backend/app/crawler/spider.py:72-79 | one more link is appended to exactly the internal or the external list, and to the untitled list iff it is untitled |
| CrawlReport.AllPageLinksLength | backend/app/crawler/spider.py:72-73 | the links over all pages number the total anchors |
| CrawlReport.UntitledOnlyMembers | backend/app/crawler/spider.py:78-79 | the untitled links are exactly the untitled ones among all links |
| CrawlReport.LinkAnalysisProperties | backend/app/crawler/spider.py:68-93 | the internal and external totals add up to the total anchors and equal their detailed lists' lengths; each list holds exactly the matching links; the broken list is the registry |
| CrawlReport.NonEmptyBacklinks | backend/app/crawler/spider.py:94 | the backlink map keeps exactly the keys with non-empty lists, and their lists unchanged |
| CrawlReport.NonEmptyBacklinksIdentity | backend/app/crawler/spider.py:94 | when no list is empty, the filter changes nothing |
| Spider.RecordPageConsistent | backend/app/crawler/spider.py:115-118 | appending a record for a visited URL not yet in `url_to_page` keeps the crawler state consistent: the pages' URLs are distinct and visited, `url_to_page` maps exactly the pages' URLs to their records, there are no more pages than visited URLs, and each page's shown backlink list is at least its `backlinks_count` long |
| Spider.RecordPageIndexed | backend/app/crawler/spider.py:115-118 | appending the record of a visited URL that has no `url_to_page` entry keeps `pages` and `url_to_page` in step: page URLs stay distinct and visited, each page is its URL's entry, each entry is one of the pages, and there are no more pages than visited URLs |
| Spider.MarkFetched | backend/app/crawler/spider.py:111-115 | a URL just added to `visited` has no `url_to_page` entry; if its fetch fails, every visited URL again has an entry exactly when its fetch succeeds, and otherwise that holds for every visited URL but this one |
| Spider.RecordFetched | backend/app/crawler/spider.py:113-118 | entering the page parsed from the open URL's successful fetch in `url_to_page` restores the invariant: every visited URL has an entry exactly when its fetch succeeds, and every entry shows its URL's fetched response (status, title, meta description, h1, first 20 h2, first 10,000 characters, word count, hash) |
| Spider.RecordPageSound | backend/app/crawler/spider.py:113-118 | the parsed record given its crawl depth is the extraction at that depth, and recording it leaves a consistent state, closes the open URL as `RecordFetched` states, and only grows the state |
| Spider.FetchedPages | backend/app/crawler/spider.py:111-118 | with no URL open, a visited URL has a `url_to_page` entry exactly when its fetch succeeded, and that entry is one of the pages and shows the fetched response |
| Spider.UrlToPageOnPages | backend/app/crawler/spider.py:117-118 | every `url_to_page` entry is one of the crawled pages |
| Spider.PagesWithinVisited | backend/app/crawler/spider.py:111-117 | pages under distinct visited URLs are never more than the visited URLs |
| Spider.ObservedBacklinksCover | backend/app/crawler/spider.py:352-353 | a page's `backlinks` value is the crawler's live list for its URL when that URL already had backlinks at parse time, so it is the final map entry and at least `backlinks_count` long; otherwise it is a fresh empty list and the count is 0 |
| Spider.RecordPageExtends | backend/app/crawler/spider.py:115-118 | recording a page only grows the crawler state |
| Spider.VisitConsistent | backend/app/crawler/spider.py:111 | adding a URL to `visited` keeps the state consistent |
| Spider.ExtractionAtDepth | backend/app/crawler/spider.py:116 | setting `crawl_depth` on an extracted record gives the record for that depth, which shows the response's status, title, meta description, h1, first 20 h2, first 10,000 characters of text, word count and hash |
| Spider.ExtendsTrans | backend/app/crawler/spider.py:97-126 | state growth is transitive across nested calls |
| Spider.FinishVisit | backend/app/crawler/spider.py:114-124 | after a page's recursive calls, its record comes first among the new pages, with the call's depth; later new pages are deeper and were not visited before the page |
| Spider.FollowCompletes | backend/app/crawler/spider.py:121-124 | the page's link loop made at most 20 calls, stopped before the end of its links only because the budget was spent, and, unless one level deeper is past the limit, left the normal form of every link it called `_crawl_recursive` on in `visited` (which URLs those calls may visit is bounded by `Reached`, in VisitPage's contract) |
| Spider.MarkReached | backend/app/crawler/spider.py:111-124 | marking a URL visited and then visiting its page reaches only that URL and the first 20 internal links of the pages recorded on the way |
| Spider.PageReached | backend/app/crawler/spider.py:114-124 | recording a page and crawling a prefix of its first 20 internal links visits only those links' normal forms and what the pages recorded on the way link to in their first 20 internal links |
| Spider.FollowReached | backend/app/crawler/spider.py:122-124 | one more pass of the link loop adds only the crawled link's normal form, or first-20 internal links of pages recorded during that pass, to what was reached |
| Spider.FollowStep | backend/app/crawler/spider.py:122-124 | one more pass of the link loop keeps the state growing, new pages deeper than the page and new to `visited`, each crawled link visited, and the frontier within the crawled links |
| Spider.AddBacklinksGrows | backend/app/crawler/spider.py:283-289 | backlink lists only grow |
| Spider.ClassifyLinks | backend/app/crawler/spider.py:72-79 | the loop's internal, external and untitled lists are the filters of all links so far |
| Spider.WebsiteCrawler.constructor | backend/app/crawler/spider.py:22-33 | the crawler starts with empty state and no base domain, so the consistency and fetch invariants hold trivially |
| Spider.WebsiteCrawler.RecordAnchor | backend/app/crawler/spider.py:253-309 | one anchor: its link record, candidate, external entry and broken entries; the link set gains its absolute URL and the backlink map gains its entry |
| Spider.WebsiteCrawler.CheckBroken | backend/app/crawler/spider.py:293-309 | the broken entries for one link |
| Spider.WebsiteCrawler.RecordAnchors | backend/app/crawler/spider.py:252-309 | the anchor loop yields the page's links, candidates, externals and broken entries, and grows the link set and backlink map by exactly those anchors |
| Spider.WebsiteCrawler.NextAnchor | backend/app/crawler/spider.py:252-309 | one iteration of the anchor loop extends each result by the next anchor |
| Spider.WebsiteCrawler.StoreBroken | backend/app/crawler/spider.py:311-313 | the page's broken list is appended to the registry in order |
| Spider.WebsiteCrawler.RecordImages | backend/app/crawler/spider.py:315-329 | each image with a `src`, `data-src` or `data-lazy-src` gives one record, in order, also appended to the global image list |
| Spider.WebsiteCrawler.ParseHtml | backend/app/crawler/spider.py:213-354 | the record is the extraction of the markup: `h2` capped at 20, `content` at 10,000 characters, `external_links` at 50, `word_count` taken from the uncapped text, `backlinks_count` taken from the map after this page; the global link set, backlink map, broken registry and images grow by this page's contribution |
| Spider.WebsiteCrawler.CrawlRecursive | backend/app/crawler/spider.py:97-126 | a spent budget, excess depth or visited URL changes nothing; otherwise the normal form enters `visited`; a failed fetch changes nothing else; a fetched page is recorded at this depth, and for each link the loop called `_crawl_recursive` on, the link's normal form is visited afterwards (unless one level deeper is past the limit). Every URL newly visited is the URL's own normal form or the normal form of one of the first 20 internal links of a page recorded during the call, so nothing outside that frontier is crawled. New pages are at most 15 deep and new to `visited`, `visited` stays within the budget, there are never more pages than visited URLs, and the invariant holds that every visited URL has a `url_to_page` entry exactly when its fetch succeeded, the entry showing that response |
| Spider.WebsiteCrawler.VisitUrl | backend/app/crawler/spider.py:111-126 | the URL is marked visited; a failed fetch changes nothing else; a successful one has its page recorded first among the new pages and its links followed, each called link leaving its normal form visited; every URL newly visited is this URL or the normal form of one of the first 20 internal links of a page recorded during the call; the fetch invariant holds again afterwards |
| Spider.WebsiteCrawler.MarkVisited | backend/app/crawler/spider.py:111 | the URL joins `visited` and nothing else changes; if its fetch fails the state is valid again at once, and otherwise the URL is open: visited, fetched, without a page yet |
| Spider.WebsiteCrawler.RecordPage | backend/app/crawler/spider.py:114-118 | for the open URL, the record of its fetched response is the extraction at this depth, is appended to `pages` and entered in `url_to_page`, and the state is valid again: the URL now has its page, showing the response |
| Spider.WebsiteCrawler.VisitPage | backend/app/crawler/spider.py:114-124 | for the open URL, the fetched page is recorded first among the new pages, and up to 20 of its internal links are passed to `_crawl_recursive` one level deeper, each leaving its normal form in `visited` unless that level is past the limit; every URL newly visited is the normal form of one of the first 20 internal links of a page recorded meanwhile (`Reached` with no roots); the state ends valid, fetch invariant included |
| Spider.WebsiteCrawler.FollowLinks | backend/app/crawler/spider.py:122-124 | calls `_crawl_recursive` on the links in order while the budget lasts; the calls made are all of them unless the budget ran out, each link called has its normal form in `visited` afterwards unless the depth is past the limit, every URL newly visited is the normal form of a link called or of one of the first 20 internal links of a page recorded meanwhile, and the state stays valid, fetch invariant included |
| Spider.WebsiteCrawler.Crawl | backend/app/crawler/spider.py:35-95 | a seed without scheme or netloc fails with "Invalid URL: seed" and changes nothing; otherwise the base domain is set, the seed is crawled from depth 0 with limit 10, every page is at most 15 deep, there are never more pages than visited URLs (so a fresh crawler stores at most `max_pages` pages), each link of the seed's page that was crawled ends up visited, every URL newly visited is the seed's normal form or the normal form of one of the first 20 internal links of a page recorded by the crawl, every visited URL has a `url_to_page` entry exactly when its fetch succeeded, each entry is one of the pages and shows its fetched response, and the result holds the pages, links, images, stats, link analysis and backlinks |
| Spider.WebsiteCrawler.Report | backend/app/crawler/spider.py:64-95 | the result is assembled from the final crawler state |
| Spider.WebsiteCrawler.CalculateStats | backend/app/crawler/spider.py:379-407 | the loop computes the stats of the page list |
| Spider.WebsiteCrawler.AnalyzeLinks | backend/app/crawler/spider.py:68-79 | the loop splits all page links into internal, external and untitled |
| SeoAudit.FindingsUpToLength | backend/app/audit/seo_audit.py:51-95 | a per-page check gives one finding per flagged page |
| SeoAudit.FindingsUpToMembers | backend/app/audit/seo_audit.py:51-95 | a per-page check's findings are exactly those of the flagged pages |
| SeoAudit.FindingsSpec | backend/app/audit/seo_audit.py:51-124 | over all pages: one finding per flagged page, and nothing else (missing title, missing meta, fewer than 300 words, H1 count, status, canonical, image alt) |
| SeoAudit.H1Outcomes | backend/app/audit/seo_audit.py:97-124 | a page never gets both H1 findings, and gets neither iff it has exactly one H1 |
| SeoAudit.LinkFindingsSpec | backend/app/audit/seo_audit.py:150-166 | each broken link found while crawling gives exactly one `broken_link_detected` issue, in order |
| SeoAudit.DepthsAt | backend/app/audit/seo_audit.py:225-227 | each page's depth is the number of non-empty segments of its path |
| SeoAudit.DepthsLength | backend/app/audit/seo_audit.py:225-227 | one depth per page |
| SeoAudit.DepthWarning | backend/app/audit/seo_audit.py:213-238 | at most one `deep_pages` warning; it is raised iff more than 30% of pages are more than 3 deep; it carries the deep count and a histogram with distinct depths whose counts sum to the page count |
| SeoAudit.FieldValues | backend/app/audit/seo_audit.py:242-243 | lists each page's title or meta description, in page order |
| SeoAudit.SharedValuesSpec | backend/app/audit/seo_audit.py:246 | the shared values are exactly the non-empty values counted more than once |
| SeoAudit.UrlsWithMembers | backend/app/audit/seo_audit.py:252 | every URL listed for a value belongs to a page with that value |
| SeoAudit.DuplicateFindingsSnoc | backend/app/audit/seo_audit.py:245-253 | one more shared value appends its finding |
| SeoAudit.DuplicateFindingsLength | backend/app/audit/seo_audit.py:245-253 | one finding per shared value |
| SeoAudit.DuplicateFindingsSpec | backend/app/audit/seo_audit.py:245-253 | the findings follow the shared values one to one |
| SeoAudit.GetMember | backend/app/audit/seo_audit.py:242-246 | a `Counter` lookup returns the stored count |
| SeoAudit.SharedOfSpec | backend/app/audit/seo_audit.py:240-268 | the shared entries have distinct, non-empty values whose counts are the true counts above 1; every such value is present |
| SeoAudit.DuplicatesSound | backend/app/audit/seo_audit.py:240-268 | each duplicate finding names a shared non-empty value with its true count and at most 5 pages that have it |
| SeoAudit.DuplicateFindingShape | backend/app/audit/seo_audit.py:247-253 | the finding built for a shared value has that shape |
| SeoAudit.DuplicatesComplete | backend/app/audit/seo_audit.py:240-268 | a value is reported iff it is non-empty and shared by more than one page |
| SeoAudit.DuplicatesDistinct | backend/app/audit/seo_audit.py:240-268 | no value is reported twice |
| SeoAudit.GroupBySourceSnoc | backend/app/audit/seo_audit.py:277-282 | one more link is appended to its source page's group |
| SeoAudit.GroupBySourceSpec | backend/app/audit/seo_audit.py:277-282 | the groups have distinct pages, each group is exactly that page's links in order, and a page has a group iff it has a link |
| SeoAudit.GroupFindingsSpec | backend/app/audit/seo_audit.py:284-295 | one warning per group, counting that group's links |
| SeoAudit.UntitledSpec | backend/app/audit/seo_audit.py:270-295 | at most 10 warnings, none without untitled links; each counts its page's links among the first 50; no page is warned twice |
| SeoAudit.Score | backend/app/audit/seo_audit.py:37-38 | the score lies in [0, 100] |
| SeoAudit.ScoreProperties | backend/app/audit/seo_audit.py:37-38 | the score is 100 iff there are no findings, and 0 iff 5·issues + 2·warnings ≥ 100; more findings never raise it |
| SeoAudit.PageFindingSeverity | backend/app/audit/seo_audit.py:51-124 | issue checks give only high-severity findings, warning checks none |
| SeoAudit.LinkFindingsHigh | backend/app/audit/seo_audit.py:155-166 | detected broken links are high severity |
| SeoAudit.DuplicateFindingsSeverity | backend/app/audit/seo_audit.py:240-268 | duplicate titles are high, duplicate meta descriptions are not |
| SeoAudit.GroupFindingsNotHigh | backend/app/audit/seo_audit.py:284-295 | untitled-link warnings are not high |
| SeoAudit.IssuesAreHigh | backend/app/audit/seo_audit.py:17-30 | every issue the audit records is high severity |
| SeoAudit.DepthFindingsNotHigh | backend/app/audit/seo_audit.py:232-238 | the depth warning is low severity |
| SeoAudit.UntitledNotHigh | backend/app/audit/seo_audit.py:270-295 | untitled warnings are not high |
| SeoAudit.DuplicatesSeverity | backend/app/audit/seo_audit.py:240-268 | duplicate titles are high, duplicate meta descriptions are not |
| SeoAudit.WarningsAreNotHigh | backend/app/audit/seo_audit.py:17-30 | no warning the audit records is high severity |
| SeoAudit.AuditProperties | backend/app/audit/seo_audit.py:15-49 | the score lies in [0, 100] and is 100 iff nothing was found; the summary counts the issues, warnings and pages; issues are high severity and warnings are not |
| SeoAudit.SEOAuditor.constructor | backend/app/audit/seo_audit.py:7-13 | the auditor reads the crawl's pages and link analysis, with empty issue and warning lists |
| SeoAudit.SEOAuditor.Audit | backend/app/audit/seo_audit.py:15-49 | runs every check in source order and returns the score and summary of the resulting lists |
| SeoAudit.SEOAuditor.RunChecks | backend/app/audit/seo_audit.py:17-30 | the fourteen checks, in order, append exactly the audit's findings |
| SeoAudit.SEOAuditor.CheckMissingTitles | backend/app/audit/seo_audit.py:51-64 | one high issue per page whose title is empty or whitespace |
| SeoAudit.SEOAuditor.CheckMissingMetaDescriptions | backend/app/audit/seo_audit.py:66-79 | one warning per page whose meta description is empty or whitespace |
| SeoAudit.SEOAuditor.CheckShortContent | backend/app/audit/seo_audit.py:81-95 | one warning per page with fewer than 300 words |
| SeoAudit.SEOAuditor.CheckDuplicateH1 | backend/app/audit/seo_audit.py:97-124 | an issue per page with several H1s, a warning per page with none |
| SeoAudit.SEOAuditor.CheckBrokenLinks | backend/app/audit/seo_audit.py:126-166 | an issue per page with status 404, 500, 502, 503 or 504, then one per broken link found while crawling |
| SeoAudit.SEOAuditor.ReportBrokenLinks | backend/app/audit/seo_audit.py:150-166 | one issue per registered broken link |
| SeoAudit.SEOAuditor.CheckRedirectChains | backend/app/audit/seo_audit.py:168-180 | one warning per page with status 301, 302, 307 or 308 |
| SeoAudit.SEOAuditor.CheckCanonicalIssues | backend/app/audit/seo_audit.py:182-200 | a warning iff the canonical is non-empty, differs from the URL and has a different path |
| SeoAudit.SEOAuditor.CheckPageDepth | backend/app/audit/seo_audit.py:213-238 | appends the depth warning, if any |
| SeoAudit.SEOAuditor.DepthDistribution | backend/app/audit/seo_audit.py:224-228 | the loop builds the depth histogram |
| SeoAudit.SEOAuditor.CheckDuplicateTitles | backend/app/audit/seo_audit.py:240-253 | appends one issue per shared title |
| SeoAudit.SEOAuditor.CheckDuplicateMetaDescriptions | backend/app/audit/seo_audit.py:255-268 | appends one warning per shared meta description |
| SeoAudit.SEOAuditor.CheckUntitledLinks | backend/app/audit/seo_audit.py:270-295 | appends the untitled-link warnings |
| SeoAudit.SEOAuditor.GroupUntitled | backend/app/audit/seo_audit.py:277-282 | the loop groups links by source page |
| SeoAudit.SEOAuditor.ReportUntitledGroups | backend/app/audit/seo_audit.py:284-295 | one warning per group |
| SeoAudit.SEOAuditor.CheckImageAltText | backend/app/audit/seo_audit.py:297-314 | one warning per page with at least one image whose alt is missing or blank, carrying that count |
| PagePower.CappedComponents | backend/app/analysis/page_power.py:46-121 | the backlink, internal-link and image scores are monotone, capped at 100, 50 and 10, and reach the cap exactly from 10 backlinks, 25 links and 50 images |
| PagePower.TieredComponents | backend/app/analysis/page_power.py:66-91 | the content score grows with the word count, the depth score falls with depth, and both take values in {5, 10, 20, 30} |
| PagePower.SeoScoreRange | backend/app/analysis/page_power.py:100-108 | the SEO score is a multiple of 5 in [0, 20]; it is 20 iff all four elements are present, and 0 iff none is |
| PagePower.LevelMonotone | backend/app/analysis/page_power.py:133-142 | the power level is monotone in the score, with thresholds 80, 60, 40 and 20 |
| PagePower.GetRecommendations | backend/app/analysis/page_power.py:151-173 | the loop builds the recommendation list |
| PagePower.RecommendationsGiven | backend/app/analysis/page_power.py:155-171 | a recommendation is given iff its condition holds |
| PagePower.AdviceGiven | backend/app/analysis/page_power.py:155-171 | the same, for one recommendation |
| PagePower.RecommendationsInOrder | backend/app/analysis/page_power.py:155-171 | the recommendations come in the source's fixed order |
| PagePower.AppendWhen | backend/app/analysis/page_power.py:155-171 | a conditional append keeps the order |
| PagePower.PagePowerRange | backend/app/analysis/page_power.py:40-149 | the total is the component sum capped at 100, it is at least 10, and the level is the level of the total |
| PagePower.ScoresKeys | backend/app/analysis/page_power.py:14-19 | the score table has one entry per distinct page URL |
| PagePower.ScoresLast | backend/app/analysis/page_power.py:16-19 | a URL's score is that of its last page |
| PagePower.PowerReportOf | backend/app/analysis/page_power.py:12-38 | `page_power` is sorted non-increasing by total score, and `top_pages` is its first `min(n, 20)` entries |
| PagePower.SumTotalsRange | backend/app/analysis/page_power.py:37 | the sum of the totals lies between 10 and 100 per page |
| PagePower.ScoresAreScores | backend/app/analysis/page_power.py:14-19 | every table entry is some page's URL and score |
| PagePower.PowerReportKeys | backend/app/analysis/page_power.py:14-29 | `page_power` is a permutation of the score table, with distinct URLs, one per page URL |
| PagePower.PowerReportAverage | backend/app/analysis/page_power.py:37 | the average is 0 without pages and lies in [10, 100] otherwise |
| PagePower.PagePowerAnalyzer.constructor | backend/app/analysis/page_power.py:7-10 | the analyser reads the crawl's pages and backlink map |
| PagePower.PagePowerAnalyzer.Analyze | backend/app/analysis/page_power.py:12-38 | the loop and sort compute the power report |
| PagePower.PagePowerAnalyzer.SumScores | backend/app/analysis/page_power.py:37 | the loop sums the totals |
| Keywords.PageTexts | backend/app/analysis/keywords.py:79-91 | one text per page, in page order |
| Keywords.AllTextContains | backend/app/analysis/keywords.py:76-93 | each part of each page occurs in the combined text |
| Keywords.ContentPrefix | backend/app/analysis/keywords.py:88-89 | a page's content part is the first `min(len, 2000)` characters of its content |
| Keywords.CleanSpec | backend/app/analysis/keywords.py:118 | the cleaned text has the same length and only word or space characters, and word and space characters are kept |
| Keywords.Bigrams | backend/app/analysis/keywords.py:137 | there are `n - 1` bigrams of `n` words |
| Keywords.Trigrams | backend/app/analysis/keywords.py:146 | there are `n - 2` trigrams of `n` words |
| Keywords.TallyEntry | backend/app/analysis/keywords.py:128 | a `Counter` entry holds an occurring word with its count |
| Keywords.MostCommonEntries | backend/app/analysis/keywords.py:129 | `most_common(n)` entries are occurring words with their counts |
| Keywords.MostCommonRanked | backend/app/analysis/keywords.py:129 | `most_common(n)` has at most `n` distinct entries sorted by non-increasing count |
| Keywords.MostCommonCutoff | backend/app/analysis/keywords.py:129 | a word left out of `most_common(n)` means the list is full and its count is at most the last entry's |
| Keywords.SortedPosition | backend/app/analysis/keywords.py:128-129 | every occurring word has a position in the ranked tally |
| Keywords.Frequencies | backend/app/analysis/keywords.py:139-143 | one term per counter entry, with its count |
| Keywords.Unigrams | backend/app/analysis/keywords.py:129-134 | the unigram filter keeps at most all entries |
| Keywords.UnigramsMembers | backend/app/analysis/keywords.py:129-134 | the unigrams are exactly the entries longer than 3 characters |
| Keywords.UnigramsRanked | backend/app/analysis/keywords.py:129-134 | filtering keeps the terms distinct and ranked |
| Keywords.FrequenciesSpec | backend/app/analysis/keywords.py:136-152 | the top `n` terms carry true counts, are ranked, and any term left out is beaten by a full list |
| Keywords.UnigramsSpec | backend/app/analysis/keywords.py:127-134 | at most 50 unigrams, all longer than 3, with true counts, ranked; a long word left out is beaten by the 50 most common |
| Keywords.BigramsSpec | backend/app/analysis/keywords.py:136-143 | at most 30 bigrams with true counts, ranked; a bigram left out is beaten by a full list |
| Keywords.TrigramsSpec | backend/app/analysis/keywords.py:145-152 | at most 20 trigrams with true counts, ranked; a trigram left out is beaten by a full list |
| Keywords.RakeKeywords | backend/app/analysis/keywords.py:103-108 | one keyword per phrase, carrying its score and its word count |
| Keywords.RakeKeywordsOf | backend/app/analysis/keywords.py:103 | at most the top 100 phrases |
| Keywords.Documents | backend/app/analysis/keywords.py:160-169 | one TF-IDF document per page, in page order |
| Keywords.TfidfKeywordsOf | backend/app/analysis/keywords.py:156-197 | fewer than 2 pages give no terms, and there are never more than 50 |
| Keywords.LowerPhrases | backend/app/analysis/keywords.py:207-208 | lowercases each RAKE phrase |
| Keywords.LowerTerms | backend/app/analysis/keywords.py:209-210 | lowercases each TF-IDF term |
| Keywords.Candidates | backend/app/analysis/keywords.py:206-210 | the candidates are the first 30 RAKE phrases plus the first 30 TF-IDF terms |
| Keywords.GrowSnoc | backend/app/analysis/keywords.py:222-231 | one more candidate is added iff unprocessed and overlapping |
| Keywords.GrowSpec | backend/app/analysis/keywords.py:222-231 | the inner loop adds distinct unprocessed candidates sharing a word with the theme, and marks exactly them processed |
| Keywords.GrowComplete | backend/app/analysis/keywords.py:222-231 | every overlapping candidate ends up processed |
| Keywords.ClusterMembers | backend/app/analysis/keywords.py:217-231 | a cluster is its theme followed by the overlapping candidates the inner loop added |
| Keywords.ClusterDistinct | backend/app/analysis/keywords.py:217-231 | a cluster's keywords are distinct |
| Keywords.NewCluster | backend/app/analysis/keywords.py:233-238 | a new cluster is well formed: a theme of at least 2 words first, members sharing a word with it, at most 10 listed, the full size at least 2 |
| Keywords.ClusterStateSpec | backend/app/analysis/keywords.py:212-238 | after any prefix of the outer loop, all clusters are well formed and disjoint, and their keywords are processed |
| Keywords.ClustersSpec | backend/app/analysis/keywords.py:199-240 | at most 10 clusters, each well formed, none sharing a keyword |
| Keywords.KeywordReportSpec | backend/app/analysis/keywords.py:27-74 | no pages, or under 10 characters of stripped text, give the empty report; otherwise at most 50 RAKE and 50 TF-IDF entries, a total of all RAKE phrases, and the n-grams of the combined text |
| Keywords.KeywordAnalyzer.constructor | backend/app/analysis/keywords.py:23-25 | the analyser reads the crawl's pages |
| Keywords.KeywordAnalyzer.Analyze | backend/app/analysis/keywords.py:27-74 | computes the keyword report |
| Keywords.KeywordAnalyzer.ExtractAllText | backend/app/analysis/keywords.py:76-93 | the loop builds the combined text |
| Keywords.KeywordAnalyzer.TextParts | backend/app/analysis/keywords.py:81-89 | a page's parts: title, h1s, h2s and the first 2000 characters of content, each only if present |
| Keywords.KeywordAnalyzer.ExtractRakeKeywords | backend/app/analysis/keywords.py:95-113 | the loop builds the top 100 RAKE keywords |
| Keywords.KeywordAnalyzer.ExtractTfidfKeywords | backend/app/analysis/keywords.py:156-197 | the loop builds the documents and returns the TF-IDF terms |
| Keywords.KeywordAnalyzer.ExtractNgrams | backend/app/analysis/keywords.py:115-154 | computes the n-grams of the text |
| Keywords.KeywordAnalyzer.LongUnigrams | backend/app/analysis/keywords.py:129-134 | the loop keeps the long unigrams |
| Keywords.KeywordAnalyzer.TermFrequencies | backend/app/analysis/keywords.py:139-152 | the loop lists the counter entries |
| Keywords.KeywordAnalyzer.ClusterKeywords | backend/app/analysis/keywords.py:199-240 | the nested loops compute the clusters |
| Keywords.KeywordAnalyzer.CandidateKeywords | backend/app/analysis/keywords.py:206-210 | the loops gather the candidates |
| Keywords.KeywordAnalyzer.LowerPhrasesOf | backend/app/analysis/keywords.py:207-208 | the loop lowercases the phrases |
| Keywords.KeywordAnalyzer.LowerTermsOf | backend/app/analysis/keywords.py:209-210 | the loop lowercases the terms |
| Keywords.KeywordAnalyzer.GatherRelated | backend/app/analysis/keywords.py:222-231 | the inner loop extends the cluster and the processed set |
| Duplicates.StrLeTotal | backend/app/analysis/duplicates.py:31 | string order is total |
| Duplicates.StrLeAntisymmetric | backend/app/analysis/duplicates.py:31 | string order is antisymmetric |
| Duplicates.PairKeySpec | backend/app/analysis/duplicates.py:31 | the key of a pair is symmetric, ordered, and holds exactly the two URLs |
| Duplicates.MergedSnoc | backend/app/analysis/duplicates.py:30-33 | the merge loop handles one report per step |
| Duplicates.MergedKeys | backend/app/analysis/duplicates.py:28-33 | the merged table has distinct keys, one per pair reported |
| Duplicates.MergeStepKeys | backend/app/analysis/duplicates.py:31-33 | one step keeps the keys distinct and adds the report's key |
| Duplicates.MergedEntries | backend/app/analysis/duplicates.py:28-33 | every stored report is one of the inputs, stored under its own key |
| Duplicates.WinnerBound | backend/app/analysis/duplicates.py:32 | the winner is at least as similar as every report of its pair |
| Duplicates.WinnerKept | backend/app/analysis/duplicates.py:32 | a later report that is not strictly better does not displace the winner |
| Duplicates.WinnerNew | backend/app/analysis/duplicates.py:32 | a strictly better report becomes the winner |
| Duplicates.MergedWinner | backend/app/analysis/duplicates.py:28-33 | the stored report of a pair is its first report of maximal similarity |
| Duplicates.Values | backend/app/analysis/duplicates.py:35 | `values()` lists the stored reports in table order |
| Duplicates.PageSets | backend/app/analysis/duplicates.py:131-140 | at most one word set per page |
| Duplicates.PageSetsSpec | backend/app/analysis/duplicates.py:131-140 | the word sets are exactly those of pages with text and more than 10 distinct lowercased words |
| Duplicates.PairsFromSound | backend/app/analysis/duplicates.py:144-159 | every report of row `i` is a similar pair `(i, k)` with `k > i` |
| Duplicates.PairsBeforeSound | backend/app/analysis/duplicates.py:143-159 | every report of the first `i` rows is a similar pair `a < b` |
| Duplicates.PairsFromComplete | backend/app/analysis/duplicates.py:144-159 | every similar pair of row `i` is reported |
| Duplicates.PairsBeforeComplete | backend/app/analysis/duplicates.py:143-159 | every similar pair in the first rows is reported |
| Duplicates.JaccardRange | backend/app/analysis/duplicates.py:148-153 | a reported index lies in (0.7, 1] |
| Duplicates.JaccardSpec | backend/app/analysis/duplicates.py:125-163 | reports are exactly the pairs `i < j` with Jaccard index above 0.7 |
| Duplicates.JaccardSimilarities | backend/app/analysis/duplicates.py:125-163 | every Jaccard report has similarity in (0.7, 1] and method "jaccard" |
| Duplicates.DuplicateReportOf | backend/app/analysis/duplicates.py:14-42 | under 2 pages the report is empty; otherwise all three methods are used, the list is sorted non-increasing and holds `min(total, 50)` entries |
| Duplicates.OccursOnceByPair | backend/app/analysis/duplicates.py:35 | a report with a distinct pair occurs once |
| Duplicates.PermutationDistinctPairs | backend/app/analysis/duplicates.py:36 | sorting keeps the pairs distinct |
| Duplicates.MergedDistinct | backend/app/analysis/duplicates.py:28-35 | the merged reports name distinct pairs |
| Duplicates.StoredIsBest | backend/app/analysis/duplicates.py:30-33 | each stored report is an input at least as similar as every report of its pair |
| Duplicates.MergedBest | backend/app/analysis/duplicates.py:28-35 | the same, for every merged report |
| Duplicates.RankedTop | backend/app/analysis/duplicates.py:35-39 | the first n of the ranked reports name distinct pairs when the reports do, are all given reports, and nothing left out is more similar than anything kept |
| Duplicates.DuplicateReportSpec | backend/app/analysis/duplicates.py:23-42 | the listed reports name distinct pairs, each the most similar report of its pair; the total counts every reported pair once; a merged report left out of the top 50 is no more similar than any listed one |
| Duplicates.DuplicateDetector.constructor | backend/app/analysis/duplicates.py:10-12 | the detector reads the crawl's pages |
| Duplicates.DuplicateDetector.Detect | backend/app/analysis/duplicates.py:14-42 | computes the duplicate report |
| Duplicates.DuplicateDetector.MergeDuplicates | backend/app/analysis/duplicates.py:28-33 | the loop builds the merged table |
| Duplicates.DuplicateDetector.DetectWithJaccard | backend/app/analysis/duplicates.py:125-163 | the nested loops produce the Jaccard reports |
| Duplicates.DuplicateDetector.CollectPageSets | backend/app/analysis/duplicates.py:131-140 | the loop collects the eligible word sets |
| Duplicates.DuplicateDetector.CompareWith | backend/app/analysis/duplicates.py:144-159 | the inner loop appends row `i`'s reports |
| Duplicates.DuplicateDetector.GetPageText | backend/app/analysis/duplicates.py:165-179 | the page text: title, h1s, h2s and the first 2000 characters of content, space-joined |
| Text.StripEmptyIffBlank | backend/app/audit/seo_audit.py:54 | `strip()` is empty iff the string is all whitespace |
| Text.SplitJoin | backend/app/audit/seo_audit.py:227 | `split(sep)` loses nothing: joining the pieces gives the string back |
| Dicts.TallyCounts | backend/app/crawler/spider.py:392-395 | the counting loop has distinct keys, each key's count is its number of occurrences, and the keys are exactly the occurring values |
| Dicts.TallySum | backend/app/crawler/spider.py:392-395 | the counts sum to the number of values |
| Sorting.SortDesc | backend/app/analysis/page_power.py:22-26 | sorting with `reverse=True` gives a permutation sorted non-increasing by the key |

## Left out

- Network I/O is an input, not a model. This covers httpx, Playwright (`_fetch_with_playwright`), timeouts and redirects. `fetch` returns the final status and parsed markup, or `None` when the request raised.
- HTML parsing (BeautifulSoup, `get_text`, `decompose`) is not modelled. A parsed `Doc` is given instead.
- `_get_element_location` is not modelled. Link records carry no "location".
- `urlparse`, `urljoin` and MD5 are uninterpreted parameters.
- `load_time` and `avg_load_time` are not modelled. They depend on the clock.
- Rounding of output numbers is not modelled: `round(score, 1)`, `round(score, 2)`, `round(jaccard, 3)` and `round(..., 4)`. Values are exact.
- Duplicates.JaccardSimilarities: states the unrounded similarity lies in (0.7, 1]. The source reports `round(jaccard, 3)`, which can equal 0.7.
- Float thresholds are exact integer tests. Examples are `jaccard > 0.7` and `deep_pages > len(pages) * 0.3`. Floating point could disagree only for very large sets or page counts.
- RAKE, TF-IDF, MinHash and cosine similarity are supplied as functions. The model does not check what they compute.
- Tie order in sorts is not claimed to match Python's stable sort. The sorts are `page_scores` in page_power.py, `duplicates_list` in duplicates.py and `Counter.most_common` in keywords.py; only the permutation and non-increasing order are proved.
- Text.Lower: lowercases ASCII letters only. Python's `lower()` covers all of Unicode.
- Keywords.CleanSpec: `\w` is taken as ASCII letters, digits, `_` and any non-ASCII non-space character. This approximates Python's Unicode `\w`.
- Exceptions and try blocks are not modelled. The exception wrapper in `crawl` and the "error" branches of the analysers (RAKE, TF-IDF, Jaccard) cannot fire in the model.
- Logging (`print`, `traceback`) and constant help texts are not modelled. This covers "fix", "example", "impact" and "weight" strings, and the recommendation strings beyond their identity.
- `_check_sitemap` and `_check_robots_txt` have empty bodies. They add nothing.
- The first loop of `_check_page_depth` is not modelled. It computes a `base_domain` that is never used.
- `total_checks` in `audit` is not modelled. It is never used.
- `include_external` has no effect. It is stored but never read.
- `async`/`await` is not modelled. Execution is sequential.
- pagespeed.py, main.py, celery_app.py, the frontend and test-scan.py are not part of this model.
