/**
 * Page power: a 0-100 authority score per crawled page, built from capped
 * and tiered components, a level derived from it, improvement
 * recommendations, and a ranking of the crawl's pages by score.
 */
module PagePower {
  import opened Wrappers
  import opened Text
  import opened Dicts
  import opened Sorting
  import opened Pages

  datatype PowerLevel = VeryHigh | High | Medium | Low | VeryLow

  /** Position of a level on the scale, VeryLow lowest. */
  function LevelRank(l: PowerLevel): nat {
    match l
    case VeryLow => 0
    case Low => 1
    case Medium => 2
    case High => 3
    case VeryHigh => 4
  }

  /** The "factors" of a score; the constant "weight" texts are left out. */
  datatype Factors = Factors(
    backlinksCount: nat, backlinkScore: nat,
    internalLinks: nat, internalLinkScore: nat,
    wordCount: nat, contentScore: nat,
    depth: nat, depthScore: nat,
    hasTitle: bool, hasMeta: bool, hasH1: bool, hasCanonical: bool, seoScore: nat,
    imagesCount: nat, imageScore: nat)

  datatype PageScore = PageScore(totalScore: nat, powerLevel: PowerLevel, factors: Factors, recommendations: seq<Advice>)

  // ---- Components --------------------------------------------------------------

  function BacklinkScore(count: nat): nat {
    Min(count * 10, 100)
  }

  function InternalLinkScore(count: nat): nat {
    Min(count * 2, 50)
  }

  function ContentScore(words: nat): nat {
    if words >= 1000 then 30 else if words >= 500 then 20 else if words >= 300 then 10 else 5
  }

  function DepthScore(depth: nat): nat {
    if depth == 0 then 30 else if depth == 1 then 20 else if depth == 2 then 10 else 5
  }

  function ImageScore(count: nat): nat {
    Min(count / 5, 10)
  }

  function Points(present: bool): nat {
    if present then 5 else 0
  }

  function SeoScore(hasTitle: bool, hasMeta: bool, hasH1: bool, hasCanonical: bool): nat {
    Points(hasTitle) + Points(hasMeta) + Points(hasH1) + Points(hasCanonical)
  }

  /**
   * The capped components grow with their count until they saturate: ten
   * backlinks give the full 100, 25 outgoing internal links the full 50 and 50
   * images the full 10.
   */
  lemma CappedComponents(a: nat, b: nat)
    requires a <= b
    ensures BacklinkScore(a) <= BacklinkScore(b) <= 100
    ensures InternalLinkScore(a) <= InternalLinkScore(b) <= 50
    ensures ImageScore(a) <= ImageScore(b) <= 10
    ensures BacklinkScore(b) == 100 <==> b >= 10
    ensures InternalLinkScore(b) == 50 <==> b >= 25
    ensures ImageScore(b) == 10 <==> b >= 50
  {
  }

  /**
   * Content and depth scores are tiers in {5, 10, 20, 30}: more words never
   * lower the content score and more depth never raises the depth score.
   */
  lemma TieredComponents(a: nat, b: nat)
    requires a <= b
    ensures ContentScore(a) <= ContentScore(b) && DepthScore(b) <= DepthScore(a)
    ensures ContentScore(a) in {5, 10, 20, 30} && DepthScore(a) in {5, 10, 20, 30}
  {
  }

  /** Five points per present element, so the SEO score is a multiple of 5 in [0, 20]. */
  lemma SeoScoreRange(hasTitle: bool, hasMeta: bool, hasH1: bool, hasCanonical: bool)
    ensures SeoScore(hasTitle, hasMeta, hasH1, hasCanonical) <= 20
    ensures SeoScore(hasTitle, hasMeta, hasH1, hasCanonical) % 5 == 0
    ensures SeoScore(hasTitle, hasMeta, hasH1, hasCanonical) == 20 <==> hasTitle && hasMeta && hasH1 && hasCanonical
    ensures SeoScore(hasTitle, hasMeta, hasH1, hasCanonical) == 0 <==> !hasTitle && !hasMeta && !hasH1 && !hasCanonical
  {
  }

  // ---- One page -------------------------------------------------------------------

  /** The factors of a page; a field is "present" when it is truthy (non-empty). */
  function FactorsOf(p: PageRecord): Factors {
    var links := |p.internalLinks|;
    var images := |p.images|;
    var title, meta, h1, canonical := p.title != "", p.metaDescription != "", p.h1 != [], p.canonical != "";
    Factors(
      p.backlinksCount, BacklinkScore(p.backlinksCount),
      links, InternalLinkScore(links),
      p.wordCount, ContentScore(p.wordCount),
      p.crawlDepth, DepthScore(p.crawlDepth),
      title, meta, h1, canonical, SeoScore(title, meta, h1, canonical),
      images, ImageScore(images))
  }

  function RawScore(f: Factors): nat {
    f.backlinkScore + f.internalLinkScore + f.contentScore + f.depthScore + f.seoScore + f.imageScore
  }

  function LevelOf(total: int): PowerLevel {
    if total >= 80 then VeryHigh
    else if total >= 60 then High
    else if total >= 40 then Medium
    else if total >= 20 then Low
    else VeryLow
  }

  /** A higher score never has a lower level, and each threshold is where its level starts. */
  lemma LevelMonotone(s: int, t: int)
    requires s <= t
    ensures LevelRank(LevelOf(s)) <= LevelRank(LevelOf(t))
    ensures LevelOf(t) == VeryHigh <==> t >= 80
    ensures LevelRank(LevelOf(t)) >= 3 <==> t >= 60
    ensures LevelRank(LevelOf(t)) >= 2 <==> t >= 40
    ensures LevelRank(LevelOf(t)) >= 1 <==> t >= 20
  {
  }

  /** The six recommendations `_get_recommendations` can give. */
  datatype Advice = MoreBacklinks | MoreInternalLinks | ExpandContent | AddTitle | AddMeta | Overall

  function AdviceText(a: Advice): string {
    match a
    case MoreBacklinks => "Increase internal backlinks - Get more pages to link to this page"
    case MoreInternalLinks => "Add more internal links to other relevant pages"
    case ExpandContent => "Expand content - Aim for at least 500 words"
    case AddTitle => "Add a title tag"
    case AddMeta => "Add a meta description"
    case Overall => "Overall: Focus on getting more internal backlinks and expanding content"
  }

  /** Whether an advice applies to the factors and total score. */
  predicate Applies(a: Advice, f: Factors, score: int) {
    match a
    case MoreBacklinks => f.backlinksCount < 5
    case MoreInternalLinks => f.internalLinks < 10
    case ExpandContent => f.wordCount < 500
    case AddTitle => !f.hasTitle
    case AddMeta => !f.hasMeta
    case Overall => score < 50
  }

  /** The order in which the advice is checked. */
  const AdviceOrder: seq<Advice> := [MoreBacklinks, MoreInternalLinks, ExpandContent, AddTitle, AddMeta, Overall]

  function When(c: bool, a: Advice): seq<Advice> {
    if c then [a] else []
  }

  /** The recommendations for a page's factors and total score. */
  function Recommendations(f: Factors, score: int): seq<Advice> {
    When(f.backlinksCount < 5, MoreBacklinks)
    + When(f.internalLinks < 10, MoreInternalLinks)
    + When(f.wordCount < 500, ExpandContent)
    + When(!f.hasTitle, AddTitle)
    + When(!f.hasMeta, AddMeta)
    + When(score < 50, Overall)
  }

  /** `_get_recommendations`: appends each advice whose condition holds. */
  method GetRecommendations(f: Factors, score: int) returns (recommendations: seq<Advice>)
    ensures recommendations == Recommendations(f, score)
  {
    ghost var w1, w2, w3 := When(f.backlinksCount < 5, MoreBacklinks), When(f.internalLinks < 10, MoreInternalLinks), When(f.wordCount < 500, ExpandContent);
    ghost var w4, w5, w6 := When(!f.hasTitle, AddTitle), When(!f.hasMeta, AddMeta), When(score < 50, Overall);
    recommendations := [];
    if f.backlinksCount < 5 {
      recommendations := recommendations + [MoreBacklinks];
    }
    assert recommendations == w1;
    if f.internalLinks < 10 {
      recommendations := recommendations + [MoreInternalLinks];
    }
    assert recommendations == w1 + w2;
    if f.wordCount < 500 {
      recommendations := recommendations + [ExpandContent];
    }
    assert recommendations == w1 + w2 + w3;
    if !f.hasTitle {
      recommendations := recommendations + [AddTitle];
    }
    assert recommendations == w1 + w2 + w3 + w4;
    if !f.hasMeta {
      recommendations := recommendations + [AddMeta];
    }
    assert recommendations == w1 + w2 + w3 + w4 + w5;
    if score < 50 {
      recommendations := recommendations + [Overall];
    }
  }

  /** Where an advice stands in the fixed order. */
  function OrderOf(a: Advice): nat {
    match a
    case MoreBacklinks => 0
    case MoreInternalLinks => 1
    case ExpandContent => 2
    case AddTitle => 3
    case AddMeta => 4
    case Overall => 5
  }

  /** An advice is given exactly when its condition holds. */
  lemma RecommendationsGiven(f: Factors, score: int)
    ensures forall a :: a in Recommendations(f, score) <==> Applies(a, f, score)
  {
    forall a ensures a in Recommendations(f, score) <==> Applies(a, f, score) {
      AdviceGiven(f, score, a);
    }
  }

  lemma AdviceGiven(f: Factors, score: int, a: Advice)
    ensures a in Recommendations(f, score) <==> Applies(a, f, score)
  {
    var w := [When(f.backlinksCount < 5, MoreBacklinks), When(f.internalLinks < 10, MoreInternalLinks),
              When(f.wordCount < 500, ExpandContent), When(!f.hasTitle, AddTitle),
              When(!f.hasMeta, AddMeta), When(score < 50, Overall)];
    assert Recommendations(f, score) == w[0] + w[1] + w[2] + w[3] + w[4] + w[5];
    assert a in Recommendations(f, score) <==> a in w[0] || a in w[1] || a in w[2] || a in w[3] || a in w[4] || a in w[5];
    assert forall k :: 0 <= k < 6 && a in w[k] ==> k == OrderOf(a);
    assert a in w[OrderOf(a)] <==> Applies(a, f, score);
  }

  /** The advice comes in the fixed order, so none is given twice. */
  lemma RecommendationsInOrder(f: Factors, score: int)
    ensures InOrder(Recommendations(f, score))
  {
    var w1 := When(f.backlinksCount < 5, MoreBacklinks);
    AppendWhen(w1, f.internalLinks < 10, MoreInternalLinks);
    var w2 := w1 + When(f.internalLinks < 10, MoreInternalLinks);
    AppendWhen(w2, f.wordCount < 500, ExpandContent);
    var w3 := w2 + When(f.wordCount < 500, ExpandContent);
    AppendWhen(w3, !f.hasTitle, AddTitle);
    var w4 := w3 + When(!f.hasTitle, AddTitle);
    AppendWhen(w4, !f.hasMeta, AddMeta);
    var w5 := w4 + When(!f.hasMeta, AddMeta);
    AppendWhen(w5, score < 50, Overall);
  }

  /** Strictly increasing in the fixed order, hence without repetition. */
  predicate InOrder(s: seq<Advice>) {
    forall i, j :: 0 <= i < j < |s| ==> OrderOf(s[i]) < OrderOf(s[j])
  }

  /** Appending an advice that comes after everything so far keeps the order. */
  lemma AppendWhen(s: seq<Advice>, c: bool, a: Advice)
    requires InOrder(s) && forall x :: x in s ==> OrderOf(x) < OrderOf(a)
    ensures InOrder(s + When(c, a))
    ensures forall x :: x in s + When(c, a) ==> OrderOf(x) <= OrderOf(a)
  {
  }

  /** `_calculate_page_power`. */
  function PagePowerOf(p: PageRecord): PageScore {
    var f := FactorsOf(p);
    var total := Min(RawScore(f), 100);
    PageScore(total, LevelOf(total), f, Recommendations(f, total))
  }

  /**
   * The total is the component sum capped at 100; it is never below 10
   * because content and depth give at least 5 points each.
   */
  lemma PagePowerRange(p: PageRecord)
    ensures var s := PagePowerOf(p);
      && 10 <= s.totalScore <= 100
      && s.totalScore == Min(RawScore(s.factors), 100)
      && s.powerLevel == LevelOf(s.totalScore)
  {
  }

  // ---- Ranking -------------------------------------------------------------------

  function UrlOf(p: PageRecord): string {
    p.url
  }

  /** `page_scores`: one entry per URL, a later page with the same URL replacing the earlier score. */
  function ScoresOf(ps: seq<PageRecord>): seq<(string, PageScore)> {
    PutEach(ps, UrlOf, PagePowerOf)
  }

  /** The URLs are the keys, each once. */
  lemma ScoresKeys(ps: seq<PageRecord>)
    ensures DistinctKeys(ScoresOf(ps))
    ensures forall u :: HasKey(ScoresOf(ps), u) <==> exists i :: 0 <= i < |ps| && ps[i].url == u
  {
    PutEachKeys(ps, UrlOf, PagePowerOf);
  }

  /** Each URL carries the score of the last page with that URL. */
  lemma ScoresLast(ps: seq<PageRecord>, i: nat, dv: PageScore)
    requires i < |ps| && forall j :: i < j < |ps| ==> ps[j].url != ps[i].url
    ensures Get(ScoresOf(ps), ps[i].url, dv) == PagePowerOf(ps[i])
  {
    PutEachLast(ps, UrlOf, PagePowerOf, i, dv);
  }

  function TotalOf(e: (string, PageScore)): real {
    e.1.totalScore as real
  }

  function SumTotals(d: seq<(string, PageScore)>): nat {
    if d == [] then 0 else SumTotals(d[..|d| - 1]) + d[|d| - 1].1.totalScore
  }

  datatype PowerReport = PowerReport(pagePower: seq<(string, PageScore)>, topPages: seq<(string, PageScore)>, averagePower: real)

  /**
   * The result of `analyze` for the crawled pages `ps`: the ranking is by
   * non-increasing score and the top pages are its first twenty.
   */
  function PowerReportOf(ps: seq<PageRecord>): (r: PowerReport)
    ensures SortedDesc(r.pagePower, TotalOf)
    ensures |r.topPages| == Min(|r.pagePower|, 20) && r.topPages <= r.pagePower
  {
    var scores := ScoresOf(ps);
    var ranked := SortDesc(scores, TotalOf);
    var average := if scores == [] then 0.0 else SumTotals(scores) as real / |scores| as real;
    PowerReport(ranked, Take(ranked, 20), average)
  }

  lemma {:induction false} SumTotalsRange(d: seq<(string, PageScore)>)
    requires forall i :: 0 <= i < |d| ==> 10 <= d[i].1.totalScore <= 100
    ensures 10 * |d| <= SumTotals(d) <= 100 * |d|
  {
    if d != [] {
      SumTotalsRange(d[..|d| - 1]);
    }
  }

  /** Every stored score is the score of some page. */
  lemma ScoresAreScores(ps: seq<PageRecord>)
    ensures forall e :: e in ScoresOf(ps) ==> exists i :: 0 <= i < |ps| && e == (ps[i].url, PagePowerOf(ps[i]))
  {
    PutEachEntries(ps, UrlOf, PagePowerOf);
  }

  /**
   * The ranking is a reordering of the per-URL scores, so it holds every
   * crawled URL once.
   */
  lemma PowerReportKeys(ps: seq<PageRecord>)
    ensures var r := PowerReportOf(ps);
      && multiset(r.pagePower) == multiset(ScoresOf(ps))
      && DistinctKeys(r.pagePower)
      && (forall u :: HasKey(r.pagePower, u) <==> exists i :: 0 <= i < |ps| && ps[i].url == u)
  {
    var scores := ScoresOf(ps);
    var ranked := PowerReportOf(ps).pagePower;
    ScoresKeys(ps);
    PermutationDistinctKeys(scores, ranked);
    forall u ensures HasKey(ranked, u) <==> HasKey(scores, u) {
      if HasKey(scores, u) {
        var i :| 0 <= i < |scores| && scores[i].0 == u;
        assert scores[i] in multiset(ranked);
      }
      if HasKey(ranked, u) {
        var i :| 0 <= i < |ranked| && ranked[i].0 == u;
        assert ranked[i] in multiset(scores);
      }
    }
  }

  /** The average lies between 10 and 100, and is 0 without pages. */
  lemma PowerReportAverage(ps: seq<PageRecord>)
    ensures ps == [] ==> PowerReportOf(ps).averagePower == 0.0
    ensures ps != [] ==> 10.0 <= PowerReportOf(ps).averagePower <= 100.0
  {
    var scores := ScoresOf(ps);
    if ps != [] {
      ScoresKeys(ps);
      assert HasKey(scores, ps[0].url);
      ScoresAreScores(ps);
      forall i | 0 <= i < |scores| ensures 10 <= scores[i].1.totalScore <= 100 {
        assert scores[i] in scores;
        var k :| 0 <= k < |ps| && scores[i] == (ps[k].url, PagePowerOf(ps[k]));
        PagePowerRange(ps[k]);
      }
      SumTotalsRange(scores);
      AverageRange(SumTotals(scores), |scores|);
    } else {
      assert scores == [];
    }
  }

  lemma AverageRange(sum: nat, n: nat)
    requires n > 0 && 10 * n <= sum <= 100 * n
    ensures 10.0 <= sum as real / n as real <= 100.0
  {
    var avg, count, total := sum as real / n as real, n as real, sum as real;
    assert avg * count == total;
    NonNegativeFactor(avg - 10.0, count);
    NonNegativeFactor(100.0 - avg, count);
  }

  lemma NonNegativeFactor(x: real, n: real)
    requires n > 0.0 && x * n >= 0.0
    ensures x >= 0.0
  {
  }

  // ---- The analyzer ---------------------------------------------------------------

  class PagePowerAnalyzer {
    const pages: seq<PageRecord>
    const backlinksMap: map<string, seq<Backlink>>

    constructor(results: CrawlResult)
      ensures pages == results.pages && backlinksMap == results.backlinksMap
    {
      pages := results.pages;
      backlinksMap := results.backlinksMap;
    }

    /** Scores every page, ranks the scores and averages them. */
    method Analyze() returns (r: PowerReport)
      ensures r == PowerReportOf(pages)
    {
      var pageScores: seq<(string, PageScore)> := [];
      var i := 0;
      while i < |pages|
        invariant 0 <= i <= |pages|
        invariant pageScores == ScoresOf(pages[..i])
      {
        var page := pages[i];
        var score := PagePowerOf(page);
        PutEachSnoc(pages, UrlOf, PagePowerOf, i);
        pageScores := Put(pageScores, page.url, score);
        i := i + 1;
      }
      assert pages[..i] == pages;
      var sortedPages := SortDesc(pageScores, TotalOf);
      var average := 0.0;
      if pageScores != [] {
        var sum := SumScores(pageScores);
        average := sum as real / |pageScores| as real;
      }
      r := PowerReport(sortedPages, Take(sortedPages, 20), average);
    }

    /** `sum(s["total_score"] for s in page_scores.values())`. */
    static method SumScores(scores: seq<(string, PageScore)>) returns (sum: nat)
      ensures sum == SumTotals(scores)
    {
      sum := 0;
      var i := 0;
      while i < |scores|
        invariant 0 <= i <= |scores|
        invariant sum == SumTotals(scores[..i])
      {
        assert scores[..i + 1][..i] == scores[..i];
        sum := sum + scores[i].1.totalScore;
        i := i + 1;
      }
      assert scores[..i] == scores;
    }
  }
}
