/**
 * The summaries `crawl` computes once the walk is over: the statistics of
 * `_calculate_stats`, the site-wide link classification and the backlink map
 * it returns. These functions are the specifications of the crawler's own
 * loops over its pages.
 */
module CrawlReport {
  import opened Wrappers
  import opened Dicts
  import opened Pages

  function TotalWords(ps: seq<PageRecord>): nat {
    if ps == [] then 0 else TotalWords(ps[..|ps| - 1]) + ps[|ps| - 1].wordCount
  }

  /** Pages whose title is non-empty (a truthy string). */
  function CountTitled(ps: seq<PageRecord>): (r: nat)
    ensures r <= |ps|
  {
    if ps == [] then 0 else CountTitled(ps[..|ps| - 1]) + (if ps[|ps| - 1].title != "" then 1 else 0)
  }

  /** Pages whose meta description is non-empty. */
  function CountWithMeta(ps: seq<PageRecord>): (r: nat)
    ensures r <= |ps|
  {
    if ps == [] then 0 else CountWithMeta(ps[..|ps| - 1]) + (if ps[|ps| - 1].metaDescription != "" then 1 else 0)
  }

  /** `pages_with_title` counts exactly the positions of pages that have a title. */
  lemma {:induction false} CountTitledIndices(ps: seq<PageRecord>)
    ensures CountTitled(ps) == |set i | 0 <= i < |ps| && ps[i].title != ""|
  {
    if ps != [] {
      var init := ps[..|ps| - 1];
      CountTitledIndices(init);
      var before := set i | 0 <= i < |init| && init[i].title != "";
      var after := set i | 0 <= i < |ps| && ps[i].title != "";
      if ps[|ps| - 1].title != "" {
        assert after == before + {|ps| - 1};
      } else {
        assert after == before;
      }
    }
  }

  /** `pages_with_meta` counts exactly the positions of pages that have a meta description. */
  lemma {:induction false} CountWithMetaIndices(ps: seq<PageRecord>)
    ensures CountWithMeta(ps) == |set i | 0 <= i < |ps| && ps[i].metaDescription != ""|
  {
    if ps != [] {
      var init := ps[..|ps| - 1];
      CountWithMetaIndices(init);
      var before := set i | 0 <= i < |init| && init[i].metaDescription != "";
      var after := set i | 0 <= i < |ps| && ps[i].metaDescription != "";
      if ps[|ps| - 1].metaDescription != "" {
        assert after == before + {|ps| - 1};
      } else {
        assert after == before;
      }
    }
  }

  function StatusCodes(ps: seq<PageRecord>): (r: seq<int>)
    ensures |r| == |ps| && forall i :: 0 <= i < |ps| ==> r[i] == ps[i].statusCode
  {
    seq(|ps|, i requires 0 <= i < |ps| => ps[i].statusCode)
  }

  /**
   * The statistics of a crawl with pages `ps`, `totalImages` image records and
   * `totalLinks` distinct link URLs; None where the source returns `{}`.
   */
  function StatsOf(ps: seq<PageRecord>, totalImages: nat, totalLinks: nat): Option<Stats> {
    if ps == [] then None
    else
      var words := TotalWords(ps);
      Some(Stats(|ps|, words, words as real / |ps| as real, CountTitled(ps), CountWithMeta(ps),
                 totalImages, totalLinks, Tally(StatusCodes(ps))))
  }

  /** The average word count times the number of pages is the word total. */
  lemma StatsAverage(ps: seq<PageRecord>, totalImages: nat, totalLinks: nat)
    requires ps != []
    ensures var s := StatsOf(ps, totalImages, totalLinks).value;
      s.avgWordCount * (s.totalPages as real) == s.totalWords as real
  {
    var s := StatsOf(ps, totalImages, totalLinks).value;
    DivTimes(s.avgWordCount, s.totalWords as real, s.totalPages as real);
  }

  lemma DivTimes(q: real, w: real, n: real)
    requires n > 0.0 && q == w / n
    ensures q * n == w
  {
  }

  /**
   * Statistics exist exactly when some page was crawled; the status histogram has one entry per
   * distinct status code, counts every page with that code, and its counts add
   * up to the number of pages.
   */
  lemma StatsProperties(ps: seq<PageRecord>, totalImages: nat, totalLinks: nat)
    ensures StatsOf(ps, totalImages, totalLinks).None? <==> ps == []
    ensures StatsOf(ps, totalImages, totalLinks).Some? ==>
      var s := StatsOf(ps, totalImages, totalLinks).value;
      && s.totalPages == |ps| > 0
      && s.pagesWithTitle <= s.totalPages && s.pagesWithMeta <= s.totalPages
      && DistinctKeys(s.statusCodes)
      && SumValues(s.statusCodes) == s.totalPages
      && (forall code :: Get(s.statusCodes, code, 0) == Count(StatusCodes(ps), code))
      && (forall code :: HasKey(s.statusCodes, code) <==> exists i :: 0 <= i < |ps| && ps[i].statusCode == code)
  {
    if ps != [] {
      var codes := StatusCodes(ps);
      TallyCounts(codes);
      TallySum(codes);
      forall code ensures code in codes <==> exists i :: 0 <= i < |ps| && ps[i].statusCode == code {
        if code in codes {
          var i :| 0 <= i < |codes| && codes[i] == code;
          assert ps[i].statusCode == code;
        }
      }
    }
  }

  // ---- Link classification --------------------------------------------------

  /** Every page's link records, page after page, each page's in document order. */
  function AllPageLinks(ps: seq<PageRecord>): seq<LinkRecord> {
    if ps == [] then [] else AllPageLinks(ps[..|ps| - 1]) + ps[|ps| - 1].allLinks
  }

  function UntitledOnly(links: seq<LinkRecord>): (r: seq<LinkRecord>)
    ensures |r| <= |links|
  {
    if links == [] then []
    else UntitledOnly(links[..|links| - 1]) + (if links[|links| - 1].isUntitled then [links[|links| - 1]] else [])
  }

  /** Appending one link appends it to exactly the filters it passes. */
  lemma LinkFiltersSnoc(links: seq<LinkRecord>, l: LinkRecord)
    ensures InternalOnly(links + [l]) == InternalOnly(links) + (if l.internal then [l] else [])
    ensures ExternalOnly(links + [l]) == ExternalOnly(links) + (if l.internal then [] else [l])
    ensures UntitledOnly(links + [l]) == UntitledOnly(links) + (if l.isUntitled then [l] else [])
  {
    assert (links + [l])[..|links|] == links;
  }

  /** The "link_analysis" part of the crawl result. */
  function LinkAnalysisOf(ps: seq<PageRecord>, broken: seq<BrokenLink>): LinkAnalysis {
    var all := AllPageLinks(ps);
    LinkAnalysis(|InternalOnly(all)|, |ExternalOnly(all)|, UntitledOnly(all), broken, InternalOnly(all), ExternalOnly(all))
  }

  function TotalAnchors(ps: seq<PageRecord>): nat {
    if ps == [] then 0 else TotalAnchors(ps[..|ps| - 1]) + |ps[|ps| - 1].allLinks|
  }

  lemma {:induction false} AllPageLinksLength(ps: seq<PageRecord>)
    ensures |AllPageLinks(ps)| == TotalAnchors(ps)
  {
    if ps != [] {
      AllPageLinksLength(ps[..|ps| - 1]);
    }
  }

  /** Untitled links are exactly the listed links that have no visible text. */
  lemma {:induction false} UntitledOnlyMembers(links: seq<LinkRecord>)
    ensures forall l :: l in UntitledOnly(links) <==> l in links && l.isUntitled
  {
    if links != [] {
      var init := links[..|links| - 1];
      UntitledOnlyMembers(init);
      assert links == init + [links[|links| - 1]];
    }
  }

  /**
   * Every link of every page is counted once, as internal or as external, so
   * the two totals add up to the number of anchors with an href on the
   * crawled pages; the detailed lists hold exactly the links of each kind and
   * the untitled list exactly the links without text.
   */
  lemma LinkAnalysisProperties(ps: seq<PageRecord>, broken: seq<BrokenLink>)
    ensures var la := LinkAnalysisOf(ps, broken);
      && la.totalInternalLinks + la.totalExternalLinks == TotalAnchors(ps)
      && la.totalInternalLinks == |la.internalLinksDetailed|
      && la.totalExternalLinks == |la.externalLinksDetailed|
      && (forall l :: l in la.internalLinksDetailed <==> l in AllPageLinks(ps) && l.internal)
      && (forall l :: l in la.externalLinksDetailed <==> l in AllPageLinks(ps) && !l.internal)
      && (forall l :: l in la.untitledLinks <==> l in AllPageLinks(ps) && l.isUntitled)
      && la.brokenLinks == broken
  {
    InternalExternalSplit(AllPageLinks(ps));
    AllPageLinksLength(ps);
    UntitledOnlyMembers(AllPageLinks(ps));
  }

  // ---- The returned backlink map ------------------------------------------------

  /** `{url: links for url, links in backlinks.items() if links}`. */
  function NonEmptyBacklinks(m: map<string, seq<Backlink>>): (r: map<string, seq<Backlink>>)
    ensures forall k :: k in r <==> k in m && m[k] != []
    ensures forall k :: k in r ==> r[k] == m[k]
  {
    map k | k in m && m[k] != [] :: m[k]
  }

  /** When no list is empty, as the crawler keeps it, the filter returns the map unchanged. */
  lemma NonEmptyBacklinksIdentity(m: map<string, seq<Backlink>>)
    requires forall k :: k in m ==> m[k] != []
    ensures NonEmptyBacklinks(m) == m
  {
  }
}
