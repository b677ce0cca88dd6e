/**
 * The crawler: a depth-first walk from a seed URL over the site's internal
 * links, bounded by a page budget and a depth limit, which parses each fetched
 * page into a record and accumulates the site-wide link set, image list,
 * backlink map and broken-link list. HTTP, HTML parsing, urlparse, urljoin and
 * md5 are supplied as function-valued fields.
 */
module Spider {
  import opened Wrappers
  import opened Text
  import opened Dicts
  import opened Urls
  import opened Pages
  import opened Extract
  import opened CrawlReport

  /** The crawler's mutable state, as a value. */
  datatype Snapshot = Snapshot(
    visited: set<string>,
    pages: seq<PageRecord>,
    allLinks: set<string>,
    allImages: seq<ImageRecord>,
    urlToPage: map<string, PageRecord>,
    backlinks: map<string, seq<Backlink>>,
    brokenLinks: seq<BrokenLink>)

  /**
   * What a crawl may do to the state: every collection only grows, lists grow
   * at the end, url_to_page entries are never replaced and each backlink list
   * grows at its end.
   */
  ghost predicate Extends(a: Snapshot, b: Snapshot) {
    && a.visited <= b.visited
    && |a.visited| <= |b.visited|
    && a.pages <= b.pages
    && a.allLinks <= b.allLinks
    && a.allImages <= b.allImages
    && a.brokenLinks <= b.brokenLinks
    && (forall k :: k in a.urlToPage ==> k in b.urlToPage && b.urlToPage[k] == a.urlToPage[k])
    && (forall k :: k in a.backlinks ==> k in b.backlinks && a.backlinks[k] <= b.backlinks[k])
  }

  /**
   * Every crawled page was visited, under a distinct URL; url_to_page maps
   * the crawled URLs to their records and holds nothing else; and so there
   * are never more pages than visited URLs. The
   * quantifiers range over the per-entry predicates below, so that they are
   * only unfolded where a proof names an entry.
   */
  ghost predicate Indexed(s: Snapshot) {
    && (forall i {:trigger PageIndexed(s, i)} :: PageIndexed(s, i))
    && (forall i, j {:trigger DistinctAt(s, i, j)} :: DistinctAt(s, i, j))
    && (forall k {:trigger KeyIndexed(s, k)} :: KeyIndexed(s, k))
    && |s.pages| <= |s.visited|
  }

  /** Page `i` (if any) was visited and is its URL's url_to_page entry. */
  ghost predicate PageIndexed(s: Snapshot, i: int) {
    0 <= i < |s.pages| ==>
      s.pages[i].url in s.visited && s.pages[i].url in s.urlToPage && s.urlToPage[s.pages[i].url] == s.pages[i]
  }

  /** Pages `i` and `j` (if both exist, `i` first) have different URLs. */
  ghost predicate DistinctAt(s: Snapshot, i: int, j: int) {
    0 <= i < j < |s.pages| ==> s.pages[i].url != s.pages[j].url
  }

  /** A url_to_page key was visited, and its record carries that URL and is one of the pages. */
  ghost predicate KeyIndexed(s: Snapshot, k: string) {
    k in s.urlToPage ==> k in s.visited && s.urlToPage[k].url == k && s.urlToPage[k] in s.pages
  }

  /**
   * No backlink list is empty, and the backlink list each page shows holds
   * at least the `backlinks_count` recorded when the page was parsed.
   */
  ghost predicate BacklinksCover(s: Snapshot) {
    && (forall k {:trigger BacklinkListed(s, k)} :: BacklinkListed(s, k))
    && (forall i {:trigger PageCovered(s, i)} :: PageCovered(s, i))
  }

  /** The backlink list under `k`, if any, is not empty. */
  ghost predicate BacklinkListed(s: Snapshot, k: string) {
    k in s.backlinks ==> s.backlinks[k] != []
  }

  /** Page `i` (if any) shows at least `backlinks_count` backlinks. */
  ghost predicate PageCovered(s: Snapshot, i: int) {
    0 <= i < |s.pages| ==> s.pages[i].backlinksCount <= |ObservedBacklinks(s.pages[i], s.backlinks)|
  }

  /** The crawler's bookkeeping agrees with itself. */
  ghost predicate Consistent(s: Snapshot) {
    Indexed(s) && BacklinksCover(s)
  }

  /**
   * The fields of a page record that come straight from the response it was
   * parsed from: status, title, meta description, headings, capped content,
   * word count and content hash.
   */
  ghost predicate ShowsResponse(rec: PageRecord, resp: Response, digest: string -> string) {
    && rec.statusCode == resp.status
    && rec.title == resp.doc.title && rec.metaDescription == resp.doc.metaDescription
    && rec.h1 == resp.doc.h1 && rec.h2 == Take(resp.doc.h2, 20)
    && rec.content == Take(resp.doc.text, 10000)
    && rec.wordCount == |Words(resp.doc.text)| && rec.contentHash == digest(resp.doc.text)
  }

  /**
   * Every visited URL outside `open` has a page exactly when its fetch
   * succeeds, and every page in url_to_page shows the response its URL's
   * fetch returns. `open` holds the URL whose page is being recorded.
   */
  ghost predicate Fetched(s: Snapshot, fetch: string -> Option<Response>, digest: string -> string, open: set<string>) {
    && (forall u {:trigger PageIffFetched(s, fetch, u)} :: u in s.visited && u !in open ==> PageIffFetched(s, fetch, u))
    && (forall u {:trigger PageShowsFetch(s, fetch, digest, u)} :: PageShowsFetch(s, fetch, digest, u))
  }

  /** `u` has a page exactly when its fetch succeeds. */
  ghost predicate PageIffFetched(s: Snapshot, fetch: string -> Option<Response>, u: string) {
    u in s.urlToPage <==> fetch(u).Some?
  }

  /** A page recorded for `u` shows the response of `u`'s fetch. */
  ghost predicate PageShowsFetch(s: Snapshot, fetch: string -> Option<Response>, digest: string -> string, u: string) {
    u in s.urlToPage ==> fetch(u).Some? && ShowsResponse(s.urlToPage[u], fetch(u).value, digest)
  }

  /**
   * Marking an unvisited URL visited leaves it without a page: the state stays
   * fetched-consistent if its fetch fails, and with the URL open otherwise.
   */
  lemma MarkFetched(s: Snapshot, n: string, fetch: string -> Option<Response>, digest: string -> string)
    requires Consistent(s) && Fetched(s, fetch, digest, {}) && n !in s.visited
    ensures n !in s.urlToPage
    ensures Fetched(s.(visited := s.visited + {n}), fetch, digest, {n})
    ensures fetch(n).None? ==> Fetched(s.(visited := s.visited + {n}), fetch, digest, {})
  {
    assert KeyIndexed(s, n);
    var s1 := s.(visited := s.visited + {n});
    forall u | u in s1.visited && (u != n || fetch(n).None?) ensures PageIffFetched(s1, fetch, u) {
      if u != n {
        assert PageIffFetched(s, fetch, u);
      }
    }
    forall u ensures PageShowsFetch(s1, fetch, digest, u) {
      assert PageShowsFetch(s, fetch, digest, u);
    }
  }

  /** Recording the page of the open URL, parsed from its fetch, closes it. */
  lemma RecordFetched(a: Snapshot, b: Snapshot, rec: PageRecord, fetch: string -> Option<Response>,
                      digest: string -> string)
    requires Fetched(a, fetch, digest, {rec.url})
    requires fetch(rec.url).Some? && ShowsResponse(rec, fetch(rec.url).value, digest)
    requires b.visited == a.visited && b.urlToPage == a.urlToPage[rec.url := rec]
    ensures Fetched(b, fetch, digest, {})
  {
    forall u | u in b.visited ensures PageIffFetched(b, fetch, u) {
      if u != rec.url {
        assert PageIffFetched(a, fetch, u);
      }
    }
    forall u ensures PageShowsFetch(b, fetch, digest, u) {
      if u != rec.url {
        assert PageShowsFetch(a, fetch, digest, u);
      }
    }
  }

  /** Recording the page of a visited URL that has no page yet keeps the state consistent. */
  lemma RecordPageConsistent(a: Snapshot, b: Snapshot, rec: PageRecord)
    requires Consistent(a) && rec.url in a.visited && rec.url !in a.urlToPage
    requires b.visited == a.visited
    requires b.pages == a.pages + [rec] && b.urlToPage == a.urlToPage[rec.url := rec]
    requires forall k :: k in b.backlinks ==> b.backlinks[k] != []
    requires forall k :: k in a.backlinks ==> k in b.backlinks && a.backlinks[k] <= b.backlinks[k]
    requires rec.backlinksCount == |MapGet(b.backlinks, rec.url)| && rec.backlinksShared == (rec.url in b.backlinks)
    ensures Consistent(b)
  {
    RecordPageIndexed(a, b, rec);
    forall k ensures BacklinkListed(b, k) {
    }
    forall i ensures PageCovered(b, i) {
      if 0 <= i < |a.pages| {
        assert PageCovered(a, i) && b.pages[i] == a.pages[i];
        var p := a.pages[i];
        if p.backlinksShared && p.url in a.backlinks {
          assert |a.backlinks[p.url]| <= |b.backlinks[p.url]|;
        }
      } else if i == |a.pages| && rec.url in b.backlinks {
        assert MapGet(b.backlinks, rec.url) == b.backlinks[rec.url];
      }
    }
  }

  /** Appending the page of a visited URL that has none yet keeps pages and url_to_page in step. */
  lemma RecordPageIndexed(a: Snapshot, b: Snapshot, rec: PageRecord)
    requires Indexed(a) && rec.url in a.visited && rec.url !in a.urlToPage
    requires b.visited == a.visited
    requires b.pages == a.pages + [rec] && b.urlToPage == a.urlToPage[rec.url := rec]
    ensures Indexed(b)
  {
    forall i, j ensures DistinctAt(b, i, j) {
      if 0 <= i < j < |a.pages| {
        assert DistinctAt(a, i, j);
      } else if 0 <= i < j == |a.pages| {
        assert PageIndexed(a, i);
      }
    }
    forall i ensures PageIndexed(b, i) {
      if 0 <= i < |a.pages| {
        assert PageIndexed(a, i);
      }
    }
    forall k ensures KeyIndexed(b, k) {
      if k == rec.url {
        assert b.pages[|a.pages|] == rec;
      } else if k in a.urlToPage {
        assert KeyIndexed(a, k);
        var i :| 0 <= i < |a.pages| && a.pages[i] == a.urlToPage[k];
        assert b.pages[i] == a.pages[i];
      }
    }
    forall i | 0 <= i < |b.pages| ensures b.pages[i].url in b.visited {
      assert PageIndexed(b, i);
    }
    forall i, j | 0 <= i < j < |b.pages| ensures b.pages[i].url != b.pages[j].url {
      assert DistinctAt(b, i, j);
    }
    PagesWithinVisited(b.pages, b.visited);
  }

  /**
   * The page's `backlinks` list aliases the crawler's live list for its URL,
   * so the list the result shows is never shorter than the `backlinks_count`
   * taken when the page was parsed; a page whose URL had no backlinks yet
   * shows an empty list and a count of 0.
   */
  lemma ObservedBacklinksCover(s: Snapshot, i: nat)
    requires Consistent(s) && i < |s.pages|
    ensures s.pages[i].backlinksShared && s.pages[i].url in s.backlinks ==>
              ObservedBacklinks(s.pages[i], s.backlinks) == s.backlinks[s.pages[i].url]
    ensures s.pages[i].backlinksCount <= |ObservedBacklinks(s.pages[i], s.backlinks)|
    ensures !s.pages[i].backlinksShared ==> s.pages[i].backlinksCount == 0
  {
    assert PageCovered(s, i);
  }

  /**
   * In a consistent state with no URL open, a visited URL has a page in
   * url_to_page exactly when its fetch succeeded, and that page is one of the
   * crawled pages and shows the fetched response.
   */
  lemma FetchedPages(s: Snapshot, fetch: string -> Option<Response>, digest: string -> string)
    requires Consistent(s) && Fetched(s, fetch, digest, {})
    ensures forall u :: u in s.visited ==> (fetch(u).Some? <==> u in s.urlToPage)
    ensures forall u :: u in s.urlToPage ==>
              s.urlToPage[u] in s.pages && fetch(u).Some? && ShowsResponse(s.urlToPage[u], fetch(u).value, digest)
  {
    forall u | u in s.visited ensures fetch(u).Some? <==> u in s.urlToPage {
      assert PageIffFetched(s, fetch, u);
    }
    UrlToPageOnPages(s);
    forall u | u in s.urlToPage
      ensures s.urlToPage[u] in s.pages && fetch(u).Some? && ShowsResponse(s.urlToPage[u], fetch(u).value, digest)
    {
      assert PageShowsFetch(s, fetch, digest, u);
    }
  }

  /** In a consistent state every url_to_page entry is one of the crawled pages. */
  lemma UrlToPageOnPages(s: Snapshot)
    requires Consistent(s)
    ensures forall k :: k in s.urlToPage ==> s.urlToPage[k] in s.pages
  {
    forall k | k in s.urlToPage ensures s.urlToPage[k] in s.pages {
      assert KeyIndexed(s, k);
    }
  }

  /** Pages under distinct visited URLs are never more than the visited URLs. */
  lemma PagesWithinVisited(pages: seq<PageRecord>, visited: set<string>)
    requires forall i :: 0 <= i < |pages| ==> pages[i].url in visited
    requires forall i, j :: 0 <= i < j < |pages| ==> pages[i].url != pages[j].url
    ensures |pages| <= |visited|
  {
    var urls := seq(|pages|, i requires 0 <= i < |pages| => pages[i].url);
    assert NoDup(urls);
    NoDupCard(urls);
    SubsetCard((set u | u in urls), visited);
  }

  /** Recording the page of a URL that has no page yet, after parsing it, extends the state. */
  lemma RecordPageExtends(a: Snapshot, b: Snapshot, rec: PageRecord)
    requires rec.url !in a.urlToPage
    requires b.visited == a.visited
    requires b.pages == a.pages + [rec] && b.urlToPage == a.urlToPage[rec.url := rec]
    requires a.allLinks <= b.allLinks && a.allImages <= b.allImages && a.brokenLinks <= b.brokenLinks
    requires forall k :: k in a.backlinks ==> k in b.backlinks && a.backlinks[k] <= b.backlinks[k]
    ensures Extends(a, b)
  {
  }

  /**
   * Recording `rec`, the parse of the fetched response `resp` of the open URL
   * given its crawl depth, into `a` (giving `b`) keeps the state consistent
   * and closes the URL: its page now shows its fetch.
   */
  lemma RecordPageSound(a: Snapshot, b: Snapshot, c: PageCtx, fetch: string -> Option<Response>,
                        digest: string -> string, resp: Response, parsed: PageRecord, rec: PageRecord, depth: nat)
    requires Consistent(a) && Fetched(a, fetch, digest, {c.pageUrl})
    requires c.pageUrl in a.visited && c.pageUrl !in a.urlToPage && fetch(c.pageUrl) == Some(resp)
    requires b.backlinks == AddBacklinks(a.backlinks, c, resp.doc.anchors)
    requires IsExtraction(c, digest, resp.status, parsed.crawlDepth, resp.doc, b.backlinks, parsed)
    requires rec == parsed.(crawlDepth := depth)
    requires b.visited == a.visited && b.pages == a.pages + [rec] && b.urlToPage == a.urlToPage[c.pageUrl := rec]
    requires a.allLinks <= b.allLinks && a.allImages <= b.allImages && a.brokenLinks <= b.brokenLinks
    ensures IsExtraction(c, digest, resp.status, depth, resp.doc, b.backlinks, rec)
    ensures Consistent(b) && Fetched(b, fetch, digest, {}) && Extends(a, b)
  {
    AddBacklinksGrows(a.backlinks, c, resp.doc.anchors);
    forall k | k in a.backlinks ensures a.backlinks[k] != [] {
      assert BacklinkListed(a, k);
    }
    AddBacklinksNonEmpty(a.backlinks, c, resp.doc.anchors);
    ExtractionAtDepth(c, digest, resp.status, resp.doc, b.backlinks, parsed, depth);
    RecordPageConsistent(a, b, rec);
    RecordFetched(a, b, rec, fetch, digest);
    RecordPageExtends(a, b, rec);
  }

  /** Marking a URL visited keeps the state consistent. */
  lemma VisitConsistent(a: Snapshot, n: string)
    requires Consistent(a)
    ensures Consistent(a.(visited := a.visited + {n}))
  {
    var b := a.(visited := a.visited + {n});
    forall i ensures PageIndexed(b, i) && PageCovered(b, i) {
      assert PageIndexed(a, i) && PageCovered(a, i);
    }
    forall i, j ensures DistinctAt(b, i, j) {
      assert DistinctAt(a, i, j);
    }
    forall k ensures KeyIndexed(b, k) && BacklinkListed(b, k) {
      assert KeyIndexed(a, k) && BacklinkListed(a, k);
    }
    SubsetCard(a.visited, b.visited);
  }

  /**
   * The page fetched as `resp` sits at index `at` of the crawled pages and is
   * the extraction of its markup, given the backlink map `before` from just
   * before its parse; the crawl then followed the first `calls` of its first
   * 20 internal links, stopping early only because the page budget was spent,
   * and, unless one level deeper exceeds the depth limit `limit`, each link
   * followed has its normalised form among the visited URLs.
   */
  ghost predicate PageVisited(c: PageCtx, digest: string -> string, resp: Response, depth: nat, limit: int, at: nat,
                              before: map<string, seq<Backlink>>, s: Snapshot, calls: nat, maxPages: int) {
    && at < |s.pages|
    && IsExtraction(c, digest, resp.status, depth, resp.doc, AddBacklinks(before, c, resp.doc.anchors), s.pages[at])
    && calls <= Min(20, |s.pages[at].internalLinks|)
    && (calls < Min(20, |s.pages[at].internalLinks|) ==> |s.visited| >= maxPages)
    && (depth + 1 <= limit ==>
          forall j :: 0 <= j < calls ==> NormalizeUrl(c.parse, s.pages[at].internalLinks[j]) in s.visited)
  }

  /** Setting the crawl depth of an extracted record gives the extraction at that depth. */
  lemma ExtractionAtDepth(c: PageCtx, digest: string -> string, status: int, doc: Doc,
                          after: map<string, seq<Backlink>>, rec: PageRecord, depth: nat)
    requires IsExtraction(c, digest, status, rec.crawlDepth, doc, after, rec)
    ensures IsExtraction(c, digest, status, depth, doc, after, rec.(crawlDepth := depth))
    ensures ShowsResponse(rec.(crawlDepth := depth), Response(status, doc), digest)
    ensures rec.url == c.pageUrl
    ensures rec.backlinksCount == |MapGet(after, c.pageUrl)| && rec.backlinksShared == (c.pageUrl in after)
  {
  }

  lemma ExtendsTrans(a: Snapshot, b: Snapshot, c: Snapshot)
    requires Extends(a, b) && Extends(b, c)
    ensures Extends(a, c)
  {
    forall k | k in a.backlinks ensures k in c.backlinks && a.backlinks[k] <= c.backlinks[k] {
      assert a.backlinks[k] <= b.backlinks[k] <= c.backlinks[k];
    }
  }

  /**
   * What visiting the page `n` at `depth` did to the state `s0`, giving `s`:
   * the state stays consistent and only grows, the budget holds, `n`'s page
   * is recorded first, and every page recorded meanwhile lies within the depth
   * bounds and was not visited before.
   */
  ghost predicate VisitDone(s0: Snapshot, s: Snapshot, n: string, depth: nat, limit: int, maxPages: int) {
    && Consistent(s) && Extends(s0, s) && |s.visited| <= maxPages
    && (forall i :: |s0.pages| <= i < |s.pages| ==> depth <= s.pages[i].crawlDepth <= Max(limit, 15))
    && (forall i :: |s0.pages| < i < |s.pages| ==> s.pages[i].url !in s0.visited)
    && |s.pages| > |s0.pages| && s.pages[|s0.pages|].url == n
  }

  /** Recording page `rec` of `n` (state `s1`), then following its links one level deeper (state `s3`), completes the visit. */
  lemma FinishVisit(s0: Snapshot, s1: Snapshot, s3: Snapshot, rec: PageRecord, n: string,
                    depth: nat, limit: int, maxPages: int)
    requires Consistent(s3) && Extends(s0, s1) && Extends(s1, s3) && |s3.visited| <= maxPages
    requires s1.pages == s0.pages + [rec] && s1.visited == s0.visited
    requires rec.url == n && rec.crawlDepth == depth && depth <= limit
    requires forall j :: |s1.pages| <= j < |s3.pages| ==>
               depth < s3.pages[j].crawlDepth <= Max(limit, 15) && s3.pages[j].url !in s1.visited
    ensures VisitDone(s0, s3, n, depth, limit, maxPages)
  {
    ExtendsTrans(s0, s1, s3);
    assert s3.pages[|s0.pages|] == rec;
  }

  /**
   * A page recorded at `at` whose first `links` (its first 20 internal links)
   * were followed `calls` times has completed its visit.
   */
  lemma FollowCompletes(c: PageCtx, digest: string -> string, resp: Response, depth: nat, limit: int, at: nat,
                        before: map<string, seq<Backlink>>, rec: PageRecord, links: seq<string>,
                        s: Snapshot, calls: nat, maxPages: int)
    requires at < |s.pages| && s.pages[at] == rec
    requires IsExtraction(c, digest, resp.status, depth, resp.doc, AddBacklinks(before, c, resp.doc.anchors), rec)
    requires links == Take(rec.internalLinks, 20)
    requires calls <= |links| && (calls < |links| ==> |s.visited| >= maxPages)
    requires depth + 1 <= limit ==> forall j :: 0 <= j < calls ==> NormalizeUrl(c.parse, links[j]) in s.visited
    ensures PageVisited(c, digest, resp, depth, limit, at, before, s, calls, maxPages)
  {
    assert |links| == Min(20, |rec.internalLinks|);
    forall j | 0 <= j < calls ensures links[j] == rec.internalLinks[j] {
      assert links <= rec.internalLinks;
    }
  }

  /**
   * Marking `n` visited (state `s1`), then visiting its page, took the state
   * `s0` to `s`: every page recorded meanwhile lies within the raised depth
   * bounds and was not visited in `s0`.
   */
  lemma VisitAfterMark(s0: Snapshot, s1: Snapshot, s: Snapshot, n: string, depth: nat, limit: int, maxPages: int)
    requires n !in s0.visited && s1 == s0.(visited := s0.visited + {n}) && Extends(s0, s1)
    requires VisitDone(s1, s, n, depth, limit, maxPages)
    ensures Extends(s0, s)
    ensures forall i :: |s0.pages| <= i < |s.pages| ==>
              depth <= s.pages[i].crawlDepth <= Max(limit, 15) && s.pages[i].url !in s0.visited
  {
    ExtendsTrans(s0, s1, s);
    forall i | |s0.pages| <= i < |s.pages|
      ensures depth <= s.pages[i].crawlDepth <= Max(limit, 15) && s.pages[i].url !in s0.visited
    {
      if i == |s0.pages| {
        assert s.pages[i].url == n;
      } else {
        assert s.pages[i].url !in s1.visited;
      }
    }
  }

  /** The normalised forms of a list of URLs. */
  ghost function NormalForms(parse: string -> Url, xs: seq<string>): set<string> {
    set x | x in xs :: NormalizeUrl(parse, x)
  }

  /** `u` is the normalised form of one of the first 20 internal links of page `rec`. */
  ghost predicate FollowedFrom(parse: string -> Url, rec: PageRecord, u: string) {
    u in NormalForms(parse, Take(rec.internalLinks, 20))
  }

  /**
   * The crawl frontier: every URL visited on the way from `s0` to `s` is one
   * of the `roots` or the normalised form of one of the first 20 internal
   * links of a page recorded on the way.
   */
  ghost predicate Reached(parse: string -> Url, s0: Snapshot, s: Snapshot, roots: set<string>) {
    forall u {:trigger ReachedUrl(parse, s0, s, roots, u)} :: ReachedUrl(parse, s0, s, roots, u)
  }

  /** `u`, if newly visited, is a root or followed from a newly recorded page. */
  ghost predicate ReachedUrl(parse: string -> Url, s0: Snapshot, s: Snapshot, roots: set<string>, u: string) {
    u in s.visited && u !in s0.visited ==>
      u in roots || exists i :: |s0.pages| <= i < |s.pages| && FollowedFrom(parse, s.pages[i], u)
  }

  /** A step that visits nothing new reaches nothing. */
  lemma ReachedNone(parse: string -> Url, s0: Snapshot, s: Snapshot, roots: set<string>)
    requires s.visited <= s0.visited
    ensures Reached(parse, s0, s, roots)
  {
    forall u ensures ReachedUrl(parse, s0, s, roots, u) {
    }
  }

  /**
   * Marking `n` visited (from `s0` to `s1`), then visiting its page without
   * any further root (to `s`), reaches only `n` and what `n`'s crawl followed.
   */
  lemma MarkReached(parse: string -> Url, s0: Snapshot, s1: Snapshot, s: Snapshot, n: string)
    requires s1.visited == s0.visited + {n} && |s0.pages| <= |s1.pages|
    requires Reached(parse, s1, s, {})
    ensures Reached(parse, s0, s, {n})
  {
    forall u ensures ReachedUrl(parse, s0, s, {n}, u) {
      assert ReachedUrl(parse, s1, s, {}, u);
    }
  }

  /**
   * A page recorded at index |s0.pages| (from `s0` to `s1`) whose first links
   * `links[..calls]` were then crawled (from `s1` to `s`) reaches nothing
   * beyond the first 20 internal links of the pages recorded on the way.
   */
  lemma PageReached(parse: string -> Url, s0: Snapshot, s1: Snapshot, s: Snapshot, links: seq<string>, calls: nat)
    requires s1.visited == s0.visited && |s0.pages| < |s1.pages| <= |s.pages|
    requires links == Take(s.pages[|s0.pages|].internalLinks, 20) && calls <= |links|
    requires Reached(parse, s1, s, NormalForms(parse, links[..calls]))
    ensures Reached(parse, s0, s, {})
  {
    forall u ensures ReachedUrl(parse, s0, s, {}, u) {
      assert ReachedUrl(parse, s1, s, NormalForms(parse, links[..calls]), u);
      if u in s.visited && u !in s0.visited && u in NormalForms(parse, links[..calls]) {
        var x :| x in links[..calls] && u == NormalizeUrl(parse, x);
        assert x in links;
        assert FollowedFrom(parse, s.pages[|s0.pages|], u);
      }
    }
  }

  /**
   * One pass of the link loop (from `s2` to `s`), crawling `links[i]` after
   * the passes over `links[..i]` (from `s1` to `s2`), reaches only the
   * normalised forms of `links[..i + 1]` and what their crawls followed.
   */
  lemma FollowReached(parse: string -> Url, s1: Snapshot, s2: Snapshot, s: Snapshot, links: seq<string>, i: nat)
    requires i < |links| && Extends(s1, s2) && Extends(s2, s)
    requires Reached(parse, s1, s2, NormalForms(parse, links[..i]))
    requires Reached(parse, s2, s, {NormalizeUrl(parse, links[i])})
    ensures Reached(parse, s1, s, NormalForms(parse, links[..i + 1]))
  {
    var roots := NormalForms(parse, links[..i + 1]);
    assert links[..i + 1] == links[..i] + [links[i]];
    forall u ensures ReachedUrl(parse, s1, s, roots, u) {
      if u in s.visited && u !in s1.visited {
        if u in s2.visited {
          assert ReachedUrl(parse, s1, s2, NormalForms(parse, links[..i]), u);
          if u in NormalForms(parse, links[..i]) {
            var x :| x in links[..i] && u == NormalizeUrl(parse, x);
            assert x in links[..i + 1];
          } else {
            var j :| |s1.pages| <= j < |s2.pages| && FollowedFrom(parse, s2.pages[j], u);
            assert s.pages[j] == s2.pages[j];
          }
        } else {
          assert ReachedUrl(parse, s2, s, {NormalizeUrl(parse, links[i])}, u);
          assert links[i] in links[..i + 1];
        }
      }
    }
  }

  /**
   * What the link loop over `links` did from `s1` to `s` after its first
   * `calls` crawls: the state only grew, every page recorded meanwhile lies
   * within the depth bounds and was not visited in `s1`, each link crawled has
   * its normalised form visited (unless `depth` is past the limit), and only
   * those links and what their crawls followed were reached.
   */
  ghost predicate FollowedLinks(parse: string -> Url, s1: Snapshot, s: Snapshot, links: seq<string>, calls: nat,
                                depth: nat, limit: int) {
    && Extends(s1, s) && calls <= |links|
    && (forall j :: |s1.pages| <= j < |s.pages| ==>
          depth <= s.pages[j].crawlDepth <= Max(limit, 15) && s.pages[j].url !in s1.visited)
    && (depth <= limit ==> forall j :: 0 <= j < calls ==> NormalizeUrl(parse, links[j]) in s.visited)
    && Reached(parse, s1, s, NormalForms(parse, links[..calls]))
  }

  /** Crawling `links[i]` (from `s2` to `s`) after the first `i` links extends the loop's record by one link. */
  lemma FollowStep(parse: string -> Url, s1: Snapshot, s2: Snapshot, s: Snapshot,
                   links: seq<string>, i: nat, depth: nat, limit: int)
    requires i < |links| && FollowedLinks(parse, s1, s2, links, i, depth, limit) && Extends(s2, s)
    requires forall j :: |s2.pages| <= j < |s.pages| ==>
               depth <= s.pages[j].crawlDepth <= Max(limit, 15) && s.pages[j].url !in s2.visited
    requires depth <= limit ==> NormalizeUrl(parse, links[i]) in s.visited
    requires Reached(parse, s2, s, {NormalizeUrl(parse, links[i])})
    ensures FollowedLinks(parse, s1, s, links, i + 1, depth, limit)
  {
    ExtendsTrans(s1, s2, s);
    forall j | |s1.pages| <= j < |s.pages|
      ensures depth <= s.pages[j].crawlDepth <= Max(limit, 15) && s.pages[j].url !in s1.visited
    {
      if j < |s2.pages| {
        assert s.pages[j] == s2.pages[j];
      }
    }
    FollowReached(parse, s1, s2, s, links, i);
  }

  lemma SubsetCard(a: set<string>, b: set<string>)
    requires a <= b
    ensures |a| <= |b|
  {
    assert b == a + (b - a);
  }

  /** The backlink lists after recording a page's anchors extend the lists before. */
  lemma AddBacklinksGrows(m: map<string, seq<Backlink>>, c: PageCtx, anchors: seq<Anchor>)
    ensures forall k :: k in m ==> k in AddBacklinks(m, c, anchors) && m[k] <= AddBacklinks(m, c, anchors)[k]
  {
    AddBacklinksSpec(m, c, anchors);
    forall k | k in m ensures k in AddBacklinks(m, c, anchors) && m[k] <= AddBacklinks(m, c, anchors)[k] {
      assert MapGet(m, k) == m[k];
    }
  }

  /**
   * The inner loop of `crawl`'s link statistics over one page's links,
   * extending the lists built from the links `done` of the earlier pages.
   */
  method ClassifyLinks(links: seq<LinkRecord>, internal0: seq<LinkRecord>, external0: seq<LinkRecord>,
                       untitled0: seq<LinkRecord>, ghost done: seq<LinkRecord>)
    returns (internal: seq<LinkRecord>, external: seq<LinkRecord>, untitled: seq<LinkRecord>)
    requires internal0 == InternalOnly(done) && external0 == ExternalOnly(done) && untitled0 == UntitledOnly(done)
    ensures internal == InternalOnly(done + links)
    ensures external == ExternalOnly(done + links)
    ensures untitled == UntitledOnly(done + links)
  {
    internal, external, untitled := internal0, external0, untitled0;
    var j := 0;
    ghost var seen := done;
    while j < |links|
      invariant 0 <= j <= |links| && seen == done + links[..j]
      invariant internal == InternalOnly(seen) && external == ExternalOnly(seen) && untitled == UntitledOnly(seen)
    {
      var link := links[j];
      LinkFiltersSnoc(seen, link);
      if link.internal {
        internal := internal + [link];
      } else {
        external := external + [link];
      }
      if link.isUntitled {
        untitled := untitled + [link];
      }
      seen := seen + [link];
      assert links[..j + 1] == links[..j] + [link];
      j := j + 1;
    }
    assert links[..j] == links;
  }

  class WebsiteCrawler {
    const maxPages: int
    const includeExternal: bool
    /** urlparse, urljoin, the md5 hex digest of the page text, and the HTTP fetch (None when it fails). */
    const parse: string -> Url
    const join: (string, string) -> string
    const digest: string -> string
    const fetch: string -> Option<Response>

    var visited: set<string>
    var pages: seq<PageRecord>
    var allLinks: set<string>
    var allImages: seq<ImageRecord>
    var baseDomain: Option<string>
    var urlToPage: map<string, PageRecord>
    var backlinks: map<string, seq<Backlink>>
    var brokenLinks: seq<BrokenLink>

    ghost function State(): Snapshot
      reads this
    {
      Snapshot(visited, pages, allLinks, allImages, urlToPage, backlinks, brokenLinks)
    }

    ghost predicate Valid()
      reads this
    {
      baseDomain.Some? && Consistent(State()) && Fetched(State(), fetch, digest, {})
    }

    /** Valid, except that `n` is visited and fetched but its page is not recorded yet. */
    ghost predicate Opened(n: string)
      reads this
    {
      && baseDomain.Some? && Consistent(State()) && Fetched(State(), fetch, digest, {n})
      && n in visited && n !in urlToPage && fetch(n).Some?
    }

    constructor (maxPages: int, includeExternal: bool, parse: string -> Url, join: (string, string) -> string,
                 digest: string -> string, fetch: string -> Option<Response>)
      ensures this.maxPages == maxPages && this.includeExternal == includeExternal
      ensures this.parse == parse && this.join == join && this.digest == digest && this.fetch == fetch
      ensures State() == Snapshot({}, [], {}, [], map[], map[], [])
      ensures baseDomain == None
      ensures Consistent(State()) && Fetched(State(), fetch, digest, {})
    {
      this.maxPages := maxPages;
      this.includeExternal := includeExternal;
      this.parse := parse;
      this.join := join;
      this.digest := digest;
      this.fetch := fetch;
      visited := {};
      pages := [];
      allLinks := {};
      allImages := [];
      baseDomain := None;
      urlToPage := map[];
      backlinks := map[];
      brokenLinks := [];
    }

    /** `c` describes a page parsed by this crawler in its current state. */
    ghost predicate Matches(c: PageCtx)
      reads this`baseDomain, this`visited
    {
      baseDomain.Some? && c.parse == parse && c.join == join && c.baseDomain == baseDomain.value && c.visited == visited
    }

    /** The parse context of page `url` with markup `doc`, in the current state. */
    ghost function Ctx(url: string, doc: Doc): PageCtx
      requires baseDomain.Some?
      reads this`baseDomain, this`visited
    {
      PageCtx(parse, join, baseDomain.value, url, visited, doc.ids, doc.names)
    }

    /**
     * One pass of the anchor loop of `_parse_html`: resolves and classifies the
     * anchor, adds its URL to the site-wide link set and, for an internal
     * target under the base domain, appends a backlink to that target's list
     * (visited or not); returns the link record, the target when it is still
     * unvisited, the URL when the anchor is external, and the broken-link entry.
     */
    method RecordAnchor(c: PageCtx, a: Anchor)
      returns (link: LinkRecord, candidate: seq<string>, external: seq<string>, broken: seq<BrokenLink>)
      requires Matches(c)
      modifies this`allLinks, this`backlinks
      ensures link == LinkOf(c, a)
      ensures candidate == CandidateOf(c, a) && external == ExternalOf(c, a) && broken == BrokenOf(c, link)
      ensures allLinks == old(allLinks) + {AbsoluteUrl(c, a)}
      ensures backlinks == AddBacklink(old(backlinks), c, a)
    {
      var url := c.pageUrl;
      var href := a.href;
      var absolute := join(url, href);
      var p := parse(absolute);
      var isInternal := p.netloc == parse(baseDomain.value).netloc || p.netloc == "";
      var isUntitled := IsBlank(a.text);
      link := LinkRecord(absolute, href, a.text, a.title, isUntitled, isInternal, url);
      allLinks := allLinks + {absolute};
      candidate, external := [], [];
      if isInternal {
        var normalized := NormalizeUrl(parse, absolute);
        if StartsWith(normalized, baseDomain.value) {
          if normalized !in visited {
            candidate := [normalized];
          }
          if normalized !in backlinks {
            backlinks := backlinks[normalized := []];
          }
          backlinks := backlinks[normalized := backlinks[normalized] + [Backlink(url, a.text, a.title)]];
        }
      } else {
        external := [absolute];
      }
      broken := CheckBroken(c, link);
    }

    /**
     * The broken-link test of the anchor loop of `_parse_html`: an empty href,
     * or a "#target" href whose target is neither an id nor a name on the page.
     * javascript:, mailto: and tel: links pass the first test but are not
     * reported.
     */
    method CheckBroken(c: PageCtx, link: LinkRecord) returns (broken: seq<BrokenLink>)
      ensures broken == BrokenOf(c, link)
    {
      var href := link.href;
      broken := [];
      if href == "" || StartsWith(href, "javascript:") || StartsWith(href, "mailto:") || StartsWith(href, "tel:")
         || StartsWith(href, "#") {
        if href != "" && StartsWith(href, "#") {
          var target := href[1..];
          if target !in c.ids && target !in c.names {
            broken := [BrokenLink(link, BrokenAnchor(target))];
          }
        } else if href == "" {
          broken := [BrokenLink(link, EmptyHref)];
        }
      }
    }

    /** The anchor loop of `_parse_html`, over the anchors that carry an href, in document order. */
    method RecordAnchors(c: PageCtx, anchors: seq<Anchor>)
      returns (links: seq<LinkRecord>, internal: seq<string>, external: seq<string>, broken: seq<BrokenLink>)
      requires Matches(c)
      modifies this`allLinks, this`backlinks
      ensures links == Links(c, anchors) && internal == Candidates(c, anchors)
      ensures external == Externals(c, anchors) && broken == Brokens(c, anchors)
      ensures backlinks == AddBacklinks(old(backlinks), c, anchors)
      ensures allLinks == old(allLinks) + LinkUrls(c, anchors)
    {
      links, internal, external, broken := [], [], [], [];
      var i := 0;
      while i < |anchors|
        invariant 0 <= i <= |anchors|
        invariant links == Links(c, anchors[..i]) && internal == Candidates(c, anchors[..i])
        invariant external == Externals(c, anchors[..i]) && broken == Brokens(c, anchors[..i])
        invariant backlinks == AddBacklinks(old(backlinks), c, anchors[..i])
        invariant allLinks == old(allLinks) + LinkUrls(c, anchors[..i])
      {
        links, internal, external, broken := NextAnchor(c, anchors, i, links, internal, external, broken, old(backlinks), old(allLinks));
        i := i + 1;
      }
      assert anchors[..i] == anchors;
    }

    /** One iteration of the anchor loop: RecordAnchor on the i-th anchor, its results appended to the page's lists. */
    method NextAnchor(c: PageCtx, anchors: seq<Anchor>, i: nat, links: seq<LinkRecord>, internal: seq<string>,
                      external: seq<string>, broken: seq<BrokenLink>,
                      ghost backlinks0: map<string, seq<Backlink>>, ghost allLinks0: set<string>)
      returns (links': seq<LinkRecord>, internal': seq<string>, external': seq<string>, broken': seq<BrokenLink>)
      requires Matches(c) && i < |anchors|
      requires links == Links(c, anchors[..i]) && internal == Candidates(c, anchors[..i])
      requires external == Externals(c, anchors[..i]) && broken == Brokens(c, anchors[..i])
      requires backlinks == AddBacklinks(backlinks0, c, anchors[..i])
      requires allLinks == allLinks0 + LinkUrls(c, anchors[..i])
      modifies this`allLinks, this`backlinks
      ensures links' == Links(c, anchors[..i + 1]) && internal' == Candidates(c, anchors[..i + 1])
      ensures external' == Externals(c, anchors[..i + 1]) && broken' == Brokens(c, anchors[..i + 1])
      ensures backlinks == AddBacklinks(backlinks0, c, anchors[..i + 1])
      ensures allLinks == allLinks0 + LinkUrls(c, anchors[..i + 1])
    {
      AnchorsSnoc(backlinks0, c, anchors, i);
      var link, candidate, ext, issue := RecordAnchor(c, anchors[i]);
      links' := links + [link];
      internal' := internal + candidate;
      external' := external + ext;
      broken' := broken + issue;
    }

    /** The loop of `_parse_html` that appends the page's broken links to the crawler's list. */
    method StoreBroken(broken: seq<BrokenLink>)
      modifies this`brokenLinks
      ensures brokenLinks == old(brokenLinks) + broken
    {
      var k := 0;
      while k < |broken|
        invariant 0 <= k <= |broken|
        invariant brokenLinks == old(brokenLinks) + broken[..k]
      {
        brokenLinks := brokenLinks + [broken[k]];
        assert broken[..k + 1] == broken[..k] + [broken[k]];
        k := k + 1;
      }
      assert broken[..k] == broken;
    }

    /** The image loop of `_parse_html`: each image with a source is recorded on the page and site-wide. */
    method RecordImages(c: PageCtx, imgs: seq<ImageTag>) returns (images: seq<ImageRecord>)
      requires c.join == join
      modifies this`allImages
      ensures images == ImagesOf(c, imgs)
      ensures allImages == old(allImages) + images
    {
      images := [];
      var j := 0;
      while j < |imgs|
        invariant 0 <= j <= |imgs|
        invariant images == ImagesOf(c, imgs[..j])
        invariant allImages == old(allImages) + images
      {
        assert imgs[..j + 1][..j] == imgs[..j];
        var img := imgs[j];
        var src := if img.src != "" then img.src else if img.dataSrc != "" then img.dataSrc else img.dataLazySrc;
        if src != "" {
          var data := ImageRecord(join(c.pageUrl, src), img.alt, c.pageUrl);
          images := images + [data];
          allImages := allImages + [data];
        }
        j := j + 1;
      }
      assert imgs[..j] == imgs;
    }

    /**
     * `_parse_html`: builds the page record and records the page's links,
     * backlinks, broken links and images in the crawler.
     */
    method ParseHtml(url: string, doc: Doc, status: int) returns (rec: PageRecord)
      requires baseDomain.Some?
      modifies this`allLinks, this`backlinks, this`brokenLinks, this`allImages
      ensures backlinks == AddBacklinks(old(backlinks), old(Ctx(url, doc)), doc.anchors)
      ensures allLinks == old(allLinks) + LinkUrls(old(Ctx(url, doc)), doc.anchors)
      ensures brokenLinks == old(brokenLinks) + Brokens(old(Ctx(url, doc)), doc.anchors)
      ensures allImages == old(allImages) + ImagesOf(old(Ctx(url, doc)), doc.images)
      ensures IsExtraction(old(Ctx(url, doc)), digest, status, rec.crawlDepth, doc, backlinks, rec)
    {
      var c := PageCtx(parse, join, baseDomain.value, url, visited, doc.ids, doc.names);
      var title := doc.title;
      var meta := doc.metaDescription;
      var canonical := doc.canonical;
      if canonical != "" && !StartsWith(canonical, "http") {
        canonical := join(url, canonical);
      }
      var text := doc.text;
      var wordCount := |Words(text)|;

      var links, internal, external, broken := RecordAnchors(c, doc.anchors);
      var anchors := doc.anchors;

      StoreBroken(broken);

      var images := RecordImages(c, doc.images);

      var hash := digest(text);
      assert Enumerates(Dedup(internal), internal);
      var internalLinks :| Enumerates(internalLinks, internal);
      var count := if url in backlinks then |backlinks[url]| else 0;
      rec := PageRecord(url, status, title, meta, canonical, doc.h1, Take(doc.h2, 20), Take(text, 10000),
                        wordCount, hash, internalLinks, Take(external, 50), images, links, broken,
                        count, url in backlinks, 0);
    }

    /**
     * `_crawl_recursive`: visits `url` unless the budget is spent, the depth
     * exceeds the limit or its normalised form was already visited; otherwise
     * VisitUrl marks it visited, fetches it and visits its page with the depth
     * limit raised to at least 15. `calls` is how many of the page's links
     * were followed.
     */
    method CrawlRecursive(url: string, depth: nat, maxDepth: int) returns (ghost calls: nat)
      requires Valid()
      modifies this
      decreases maxPages - |visited|, 3
      ensures Valid() && baseDomain == old(baseDomain)
      ensures Extends(old(State()), State())
      ensures |visited| <= Max(|old(visited)|, maxPages)
      ensures forall i :: |old(pages)| <= i < |pages| ==>
                depth <= pages[i].crawlDepth <= Max(maxDepth, 15) && pages[i].url !in old(visited)
      ensures |pages| <= |visited|
      ensures |old(visited)| < maxPages && depth <= maxDepth ==> NormalizeUrl(parse, url) in visited
      ensures Reached(parse, old(State()), State(), {NormalizeUrl(parse, url)})
      ensures var n := NormalizeUrl(parse, url);
        if |old(visited)| >= maxPages || depth > maxDepth || n in old(visited) then
          State() == old(State())
        else
          && n in visited
          && match fetch(n)
             case None => State() == old(State()).(visited := old(visited) + {n})
             case Some(resp) =>
               PageVisited(PageCtx(parse, join, baseDomain.value, n, old(visited) + {n}, resp.doc.ids, resp.doc.names),
                           digest, resp, depth, Max(maxDepth, 15), |old(pages)|, old(backlinks), State(), calls, maxPages)
    {
      calls := 0;
      ReachedNone(parse, State(), State(), {NormalizeUrl(parse, url)});
      if |visited| >= maxPages || depth > maxDepth {
        return;
      }
      var limit := if maxDepth < 15 then 15 else maxDepth;
      var n := NormalizeUrl(parse, url);
      if n in visited {
        return;
      }
      calls := VisitUrl(n, depth, limit);
      assert Max(limit, 15) == Max(maxDepth, 15);
    }

    /**
     * The rest of `_crawl_recursive` for an unvisited normalised URL `n`
     * within budget and depth: `n` is marked visited, a failed fetch leaves
     * it at that, and a fetched page is recorded and its links followed.
     */
    method VisitUrl(n: string, depth: nat, limit: int) returns (ghost calls: nat)
      requires Valid() && n !in visited && |visited| < maxPages && depth <= limit
      modifies this
      decreases maxPages - |visited|, 2
      ensures Valid() && baseDomain == old(baseDomain)
      ensures Extends(old(State()), State())
      ensures |visited| <= maxPages && n in visited
      ensures forall i :: |old(pages)| <= i < |pages| ==>
                depth <= pages[i].crawlDepth <= Max(limit, 15) && pages[i].url !in old(visited)
      ensures Reached(parse, old(State()), State(), {n})
      ensures match fetch(n)
        case None => State() == old(State()).(visited := old(visited) + {n})
        case Some(resp) =>
          PageVisited(PageCtx(parse, join, baseDomain.value, n, old(visited) + {n}, resp.doc.ids, resp.doc.names),
                      digest, resp, depth, Max(limit, 15), |old(pages)|, old(backlinks), State(), calls, maxPages)
    {
      calls := 0;
      ghost var s0 := State();
      MarkVisited(n);
      ghost var s1 := State();
      var resp := fetch(n);
      if resp.Some? {
        calls := VisitPage(n, resp.value, depth, limit);
        VisitAfterMark(s0, s1, State(), n, depth, limit, maxPages);
      } else {
        ReachedNone(parse, s1, s1, {});
      }
      MarkReached(parse, s0, s1, State(), n);
    }

    /**
     * `self.visited.add(normalized_url)`: `n` becomes visited; when its fetch
     * fails the state is already valid again, otherwise `n` is open until its
     * page is recorded.
     */
    method MarkVisited(n: string)
      requires Valid() && n !in visited
      modifies this`visited
      ensures State() == old(State()).(visited := old(visited) + {n})
      ensures |visited| == |old(visited)| + 1
      ensures Extends(old(State()), State())
      ensures fetch(n).Some? ==> Opened(n)
      ensures fetch(n).None? ==> Valid()
    {
      ghost var s0 := State();
      visited := visited + {n};
      VisitConsistent(s0, n);
      MarkFetched(s0, n, fetch, digest);
    }

    /**
     * The start of the fetched-page branch of `_crawl_recursive`: the page is
     * parsed, given its crawl depth, appended to the pages and entered in
     * url_to_page.
     */
    method RecordPage(n: string, resp: Response, depth: nat) returns (rec: PageRecord)
      requires Opened(n) && fetch(n) == Some(resp)
      modifies this`allLinks, this`backlinks, this`brokenLinks, this`allImages, this`pages, this`urlToPage
      ensures Valid()
      ensures Extends(old(State()), State())
      ensures pages == old(pages) + [rec]
      ensures rec.url == n && rec.crawlDepth == depth && n in urlToPage
      ensures var c := PageCtx(parse, join, baseDomain.value, n, old(visited), resp.doc.ids, resp.doc.names);
              IsExtraction(c, digest, resp.status, depth, resp.doc, AddBacklinks(old(backlinks), c, resp.doc.anchors), rec)
    {
      ghost var s0 := State();
      ghost var c := PageCtx(parse, join, baseDomain.value, n, visited, resp.doc.ids, resp.doc.names);
      assert c == Ctx(n, resp.doc);
      var parsed := ParseHtml(n, resp.doc, resp.status);
      rec := parsed.(crawlDepth := depth);
      pages := pages + [rec];
      urlToPage := urlToPage[n := rec];
      RecordPageSound(s0, State(), c, fetch, digest, resp, parsed, rec, depth);
    }

    /**
     * The fetched-page branch of `_crawl_recursive`: records the page at the
     * given depth, then follows the first 20 of its unvisited internal links
     * (or all, when fewer) one level deeper, each only while fewer than
     * max_pages URLs have been visited; `calls` of them were followed.
     */
    method VisitPage(n: string, resp: Response, depth: nat, limit: int) returns (ghost calls: nat)
      requires Opened(n) && fetch(n) == Some(resp)
      requires |visited| <= maxPages && depth <= limit
      modifies this
      decreases maxPages - |visited| + 1, 1
      ensures baseDomain == old(baseDomain)
      ensures VisitDone(old(State()), State(), n, depth, limit, maxPages)
      ensures Valid()
      ensures Reached(parse, old(State()), State(), {})
      ensures PageVisited(PageCtx(parse, join, baseDomain.value, n, old(visited), resp.doc.ids, resp.doc.names),
                          digest, resp, depth, Max(limit, 15), |old(pages)|, old(backlinks), State(), calls, maxPages)
    {
      ghost var s0 := State();
      ghost var c := Ctx(n, resp.doc);
      var rec := RecordPage(n, resp, depth);
      ghost var s1 := State();
      var limit' := if limit < 15 then 15 else limit;
      var links := Take(rec.internalLinks, 20);
      calls := FollowLinks(links, depth + 1, limit');
      FinishVisit(s0, s1, State(), rec, n, depth, limit, maxPages);
      assert pages[|s0.pages|] == rec;
      FollowCompletes(c, digest, resp, depth, limit', |s0.pages|, s0.backlinks, rec, links, State(), calls, maxPages);
      PageReached(parse, s0, s1, State(), links, calls);
    }

    /**
     * The loop over a page's first internal links in `_crawl_recursive`: each
     * is crawled one level deeper while fewer than max_pages URLs are visited.
     * Since the visited set only grows, the links crawled are a prefix of
     * `links`; `calls` is its length. Unless `depth` exceeds the limit, each
     * link crawled ends up with its normalised form visited.
     */
    method FollowLinks(links: seq<string>, depth: nat, limit: int) returns (ghost calls: nat)
      requires Valid()
      requires |visited| <= maxPages
      modifies this
      decreases maxPages - |visited| + 1, 0
      ensures Valid() && baseDomain == old(baseDomain)
      ensures Extends(old(State()), State())
      ensures |visited| <= maxPages
      ensures FollowedLinks(parse, old(State()), State(), links, calls, depth, limit)
      ensures calls < |links| ==> |visited| >= maxPages
    {
      ghost var s1 := State();
      var i := 0;
      calls := 0;
      ReachedNone(parse, s1, s1, NormalForms(parse, links[..0]));
      while i < |links|
        invariant 0 <= i <= |links|
        invariant Valid() && baseDomain == old(baseDomain)
        invariant |visited| <= maxPages
        invariant calls <= i && (calls < i ==> |visited| >= maxPages)
        invariant FollowedLinks(parse, s1, State(), links, calls, depth, limit)
      {
        if |visited| < maxPages {
          ghost var s2 := State();
          var _ := CrawlRecursive(links[i], depth, limit);
          FollowStep(parse, s1, s2, State(), links, i, depth, limit);
          calls := i + 1;
        }
        i := i + 1;
      }
    }

    /**
     * `crawl`: a seed without a scheme or a netloc is rejected with
     * "Invalid URL: <seed>" and nothing changes; otherwise the base domain is
     * set, the site is walked from the seed at depth 0 with depth limit 10,
     * and the pages, link set, images, statistics, link analysis and the map
     * of non-empty backlink lists are returned.
     */
    method Crawl(startUrl: string) returns (r: Result<CrawlResult, string>, ghost calls: nat)
      requires Consistent(State()) && Fetched(State(), fetch, digest, {})
      modifies this
      ensures BaseDomain(parse(startUrl)).None? ==>
                r == Failure("Invalid URL: " + startUrl) && State() == old(State()) && baseDomain == old(baseDomain)
      ensures BaseDomain(parse(startUrl)).Some? ==>
                && baseDomain == BaseDomain(parse(startUrl)) && Valid()
                && Extends(old(State()), State())
                && |visited| <= Max(|old(visited)|, maxPages)
                && (forall u :: u in visited ==> (fetch(u).Some? <==> u in urlToPage))
                && (forall u :: u in urlToPage ==>
                      urlToPage[u] in pages && fetch(u).Some? && ShowsResponse(urlToPage[u], fetch(u).value, digest))
                && (forall i :: |old(pages)| <= i < |pages| ==> pages[i].crawlDepth <= 15 && pages[i].url !in old(visited))
                && |pages| <= |visited|
                && (old(visited) == {} ==> |pages| <= Max(0, maxPages))
                && Reached(parse, old(State()), State(), {NormalizeUrl(parse, startUrl)})
                && r == Success(CrawlResult(pages, allLinks, allImages, StatsOf(pages, |allImages|, |allLinks|),
                                            LinkAnalysisOf(pages, brokenLinks), backlinks))
      ensures BaseDomain(parse(startUrl)).Some? ==>
                var n := NormalizeUrl(parse, startUrl);
                if |old(visited)| >= maxPages || n in old(visited) then
                  State() == old(State())
                else
                  && n in visited
                  && match fetch(n)
                     case None => State() == old(State()).(visited := old(visited) + {n})
                     case Some(resp) =>
                       PageVisited(PageCtx(parse, join, baseDomain.value, n, old(visited) + {n}, resp.doc.ids, resp.doc.names),
                                   digest, resp, 0, 15, |old(pages)|, old(backlinks), State(), calls, maxPages)
    {
      var seed := parse(startUrl);
      if seed.scheme == "" || seed.netloc == "" {
        r, calls := Failure("Invalid URL: " + startUrl), 0;
        return;
      }
      baseDomain := Some(seed.scheme + "://" + seed.netloc);
      calls := CrawlRecursive(startUrl, 0, 10);
      var result := Report();
      r := Success(result);
      FetchedPages(State(), fetch, digest);
    }

    /** The result `crawl` assembles from the crawler's state once the walk is over. */
    method Report() returns (result: CrawlResult)
      requires Valid()
      ensures result == CrawlResult(pages, allLinks, allImages, StatsOf(pages, |allImages|, |allLinks|),
                                    LinkAnalysisOf(pages, brokenLinks), backlinks)
    {
      var stats := CalculateStats();
      var internal, external, untitled := AnalyzeLinks();
      var analysis := LinkAnalysis(|internal|, |external|, untitled, brokenLinks, internal, external);
      var backlinksMap := map url | url in backlinks && backlinks[url] != [] :: backlinks[url];
      forall k | k in backlinks ensures backlinks[k] != [] {
        assert BacklinkListed(State(), k);
      }
      assert backlinksMap == backlinks;
      result := CrawlResult(pages, allLinks, allImages, stats, analysis, backlinksMap);
    }

    /** `_calculate_stats`; None where the source returns `{}` because no page was crawled. */
    method CalculateStats() returns (r: Option<Stats>)
      ensures r == StatsOf(pages, |allImages|, |allLinks|)
    {
      var totalPages := |pages|;
      if totalPages == 0 {
        return None;
      }
      var totalWords := TotalWords(pages);
      var withTitle := CountTitled(pages);
      var withMeta := CountWithMeta(pages);
      var statusCodes: seq<(int, nat)> := [];
      var i := 0;
      while i < |pages|
        invariant 0 <= i <= |pages|
        invariant statusCodes == Tally(StatusCodes(pages[..i]))
      {
        var code := pages[i].statusCode;
        assert StatusCodes(pages[..i + 1]) == StatusCodes(pages[..i]) + [code];
        statusCodes := Put(statusCodes, code, Get(statusCodes, code, 0) + 1);
        i := i + 1;
      }
      assert pages[..i] == pages;
      r := Some(Stats(totalPages, totalWords, totalWords as real / totalPages as real, withTitle, withMeta,
                      |allImages|, |allLinks|, statusCodes));
    }

    /** The link-statistics loop of `crawl`: every link of every page, split by kind, and the untitled ones. */
    method AnalyzeLinks() returns (internal: seq<LinkRecord>, external: seq<LinkRecord>, untitled: seq<LinkRecord>)
      ensures internal == InternalOnly(AllPageLinks(pages))
      ensures external == ExternalOnly(AllPageLinks(pages))
      ensures untitled == UntitledOnly(AllPageLinks(pages))
    {
      internal, external, untitled := [], [], [];
      var i := 0;
      while i < |pages|
        invariant 0 <= i <= |pages|
        invariant internal == InternalOnly(AllPageLinks(pages[..i]))
        invariant external == ExternalOnly(AllPageLinks(pages[..i]))
        invariant untitled == UntitledOnly(AllPageLinks(pages[..i]))
      {
        assert AllPageLinks(pages[..i + 1]) == AllPageLinks(pages[..i]) + pages[i].allLinks by {
          assert pages[..i + 1][..i] == pages[..i];
        }
        internal, external, untitled := ClassifyLinks(pages[i].allLinks, internal, external, untitled, AllPageLinks(pages[..i]));
        i := i + 1;
      }
      assert pages[..i] == pages;
    }
  }
}
