/**
 * The SEO rule checker. An auditor receives a crawl result and runs fourteen
 * checks in a fixed order; each appends findings to its issue list or its
 * warning list. The score is computed from the lengths of the two lists.
 *
 * A finding keeps the data the checks put into it: the page, the counts and
 * the lists. It leaves out the constant help texts (message, fix, example,
 * impact). `urlparse` is the `parse` parameter, as in the crawler.
 */
module SeoAudit {
  import opened Wrappers
  import opened Text
  import opened Dicts
  import opened Urls
  import opened Pages

  datatype Severity = High | Medium | Low

  /** The two text fields whose duplicates are reported. */
  datatype TextField = TitleField | MetaField

  function FieldOf(field: TextField, p: PageRecord): string {
    match field
    case TitleField => p.title
    case MetaField => p.metaDescription
  }

  datatype Finding =
    | MissingTitle(page: string)
    | MissingMetaDescription(page: string)
    | ShortContent(page: string, wordCount: nat)
    | MultipleH1(page: string, h1Tags: seq<string>)
    | MissingH1(page: string)
    | BrokenPage(page: string, statusCode: int, statusMessage: string)
    | BrokenLinkDetected(page: string, brokenUrl: string, anchorText: string, issue: BrokenIssue)
    | Redirect(page: string, statusCode: int)
    | CanonicalMismatch(page: string, canonical: string)
    | DeepPages(deepPages: nat, distribution: seq<(nat, nat)>)
    | Duplicated(field: TextField, value: string, count: nat, pages: seq<string>)
    | UntitledLinks(page: string, untitledCount: nat)
    | MissingImageAlt(page: string, missingAltCount: nat)

  /** The "type" field of a finding. */
  function TypeName(f: Finding): string {
    match f
    case MissingTitle(_) => "missing_title"
    case MissingMetaDescription(_) => "missing_meta_description"
    case ShortContent(_, _) => "short_content"
    case MultipleH1(_, _) => "multiple_h1"
    case MissingH1(_) => "missing_h1"
    case BrokenPage(_, _, _) => "broken_link"
    case BrokenLinkDetected(_, _, _, _) => "broken_link_detected"
    case Redirect(_, _) => "redirect"
    case CanonicalMismatch(_, _) => "canonical_mismatch"
    case DeepPages(_, _) => "deep_pages"
    case Duplicated(field, _, _, _) => if field == TitleField then "duplicate_title" else "duplicate_meta_description"
    case UntitledLinks(_, _) => "untitled_links"
    case MissingImageAlt(_, _) => "missing_image_alt"
  }

  /** The "severity" field of a finding. */
  function SeverityOf(f: Finding): Severity {
    match f
    case MissingTitle(_) => High
    case MissingMetaDescription(_) => Medium
    case ShortContent(_, _) => Medium
    case MultipleH1(_, _) => High
    case MissingH1(_) => Medium
    case BrokenPage(_, _, _) => High
    case BrokenLinkDetected(_, _, _, _) => High
    case Redirect(_, _) => Medium
    case CanonicalMismatch(_, _) => Low
    case DeepPages(_, _) => Low
    case Duplicated(field, _, _, _) => if field == TitleField then High else Medium
    case UntitledLinks(_, _) => Low
    case MissingImageAlt(_, _) => Medium
  }

  // ---- The per-page checks ---------------------------------------------------

  /** The checks that look at one page at a time and report it at most once. */
  datatype PageCheck =
    | TitlePresence | MetaPresence | ContentLength | H1Multiple | H1Missing
    | StatusBroken | StatusRedirect | CanonicalPath | ImageAlt

  const BrokenStatusCodes: seq<int> := [404, 500, 502, 503, 504]
  const RedirectCodes: seq<int> := [301, 302, 307, 308]

  /** The reason phrase put into the message of a broken page. */
  function StatusMessage(code: int): string {
    if code == 404 then "Page Not Found"
    else if code == 500 then "Internal Server Error"
    else if code == 502 then "Bad Gateway"
    else if code == 503 then "Service Unavailable"
    else if code == 504 then "Gateway Timeout"
    else "Error"
  }

  predicate BlankAlt(img: ImageRecord) {
    IsBlank(img.alt)
  }

  /** The number of the page's images whose alt text is missing or blank. */
  function MissingAltCount(images: seq<ImageRecord>): nat {
    CountIf(images, BlankAlt)
  }

  /** Whether a check reports the page. */
  predicate Flagged(k: PageCheck, parse: string -> Url, p: PageRecord) {
    match k
    case TitlePresence => IsBlank(p.title)
    case MetaPresence => IsBlank(p.metaDescription)
    case ContentLength => p.wordCount < 300
    case H1Multiple => |p.h1| > 1
    case H1Missing => |p.h1| == 0
    case StatusBroken => p.statusCode in BrokenStatusCodes
    case StatusRedirect => p.statusCode in RedirectCodes
    case CanonicalPath =>
      p.canonical != "" && p.canonical != p.url && parse(p.canonical).path != parse(p.url).path
    case ImageAlt => MissingAltCount(p.images) > 0
  }

  /** The finding a reported page produces. */
  function FindingOf(k: PageCheck, p: PageRecord): Finding {
    match k
    case TitlePresence => MissingTitle(p.url)
    case MetaPresence => MissingMetaDescription(p.url)
    case ContentLength => ShortContent(p.url, p.wordCount)
    case H1Multiple => MultipleH1(p.url, p.h1)
    case H1Missing => MissingH1(p.url)
    case StatusBroken => BrokenPage(p.url, p.statusCode, StatusMessage(p.statusCode))
    case StatusRedirect => Redirect(p.url, p.statusCode)
    case CanonicalPath => CanonicalMismatch(p.url, p.canonical)
    case ImageAlt => MissingImageAlt(p.url, MissingAltCount(p.images))
  }

  function Check(k: PageCheck, parse: string -> Url, p: PageRecord): seq<Finding> {
    if Flagged(k, parse, p) then [FindingOf(k, p)] else []
  }

  /** The findings of one per-page check over the first n pages, in page order. */
  function FindingsUpTo(k: PageCheck, parse: string -> Url, ps: seq<PageRecord>, n: nat): seq<Finding>
    requires n <= |ps|
  {
    if n == 0 then [] else FindingsUpTo(k, parse, ps, n - 1) + Check(k, parse, ps[n - 1])
  }

  function Findings(k: PageCheck, parse: string -> Url, ps: seq<PageRecord>): seq<Finding> {
    FindingsUpTo(k, parse, ps, |ps|)
  }

  function FlaggedCount(k: PageCheck, parse: string -> Url, ps: seq<PageRecord>, n: nat): nat
    requires n <= |ps|
  {
    if n == 0 then 0 else FlaggedCount(k, parse, ps, n - 1) + (if Flagged(k, parse, ps[n - 1]) then 1 else 0)
  }

  lemma {:induction false} FindingsUpToLength(k: PageCheck, parse: string -> Url, ps: seq<PageRecord>, n: nat)
    requires n <= |ps|
    ensures |FindingsUpTo(k, parse, ps, n)| == FlaggedCount(k, parse, ps, n)
  {
    if n > 0 {
      FindingsUpToLength(k, parse, ps, n - 1);
    }
  }

  lemma {:induction false} FindingsUpToMembers(k: PageCheck, parse: string -> Url, ps: seq<PageRecord>, n: nat)
    requires n <= |ps|
    ensures forall f :: f in FindingsUpTo(k, parse, ps, n) <==>
              exists i :: 0 <= i < n && Flagged(k, parse, ps[i]) && f == FindingOf(k, ps[i])
  {
    if n > 0 {
      FindingsUpToMembers(k, parse, ps, n - 1);
      var last := Check(k, parse, ps[n - 1]);
      forall f | f in last ensures Flagged(k, parse, ps[n - 1]) && f == FindingOf(k, ps[n - 1]) {
      }
    }
  }

  /**
   * A per-page check reports each page it flags exactly once, with that
   * page's finding, and reports nothing else.
   */
  lemma FindingsSpec(k: PageCheck, parse: string -> Url, ps: seq<PageRecord>)
    ensures |Findings(k, parse, ps)| == FlaggedCount(k, parse, ps, |ps|)
    ensures forall f :: f in Findings(k, parse, ps) <==>
              exists i :: 0 <= i < |ps| && Flagged(k, parse, ps[i]) && f == FindingOf(k, ps[i])
  {
    FindingsUpToLength(k, parse, ps, |ps|);
    FindingsUpToMembers(k, parse, ps, |ps|);
  }

  /**
   * The H1 check gives a page with several H1 tags one issue, a page
   * without one a warning, and a page with exactly one nothing.
   */
  lemma H1Outcomes(parse: string -> Url, p: PageRecord)
    ensures !(Flagged(H1Multiple, parse, p) && Flagged(H1Missing, parse, p))
    ensures !Flagged(H1Multiple, parse, p) && !Flagged(H1Missing, parse, p) <==> |p.h1| == 1
  {
  }

  // ---- Broken links found by the crawler ---------------------------------------

  function DetectedOf(b: BrokenLink): Finding {
    BrokenLinkDetected(b.link.sourcePage, b.link.url, b.link.anchorText, b.issue)
  }

  /** One "broken_link_detected" issue per entry of the crawler's broken-link list, in its order. */
  function LinkFindings(bs: seq<BrokenLink>): seq<Finding> {
    if bs == [] then [] else LinkFindings(bs[..|bs| - 1]) + [DetectedOf(bs[|bs| - 1])]
  }

  lemma {:induction false} LinkFindingsSpec(bs: seq<BrokenLink>)
    ensures |LinkFindings(bs)| == |bs|
    ensures forall i :: 0 <= i < |bs| ==> LinkFindings(bs)[i] == DetectedOf(bs[i])
  {
    if bs != [] {
      LinkFindingsSpec(bs[..|bs| - 1]);
    }
  }

  // ---- Path depth ------------------------------------------------------------------

  predicate NonEmptyString(s: string) {
    s != ""
  }

  /** `len([p for p in path.split('/') if p])`. */
  function PathDepth(path: string): nat {
    CountIf(Split(path, '/'), NonEmptyString)
  }

  /** The path depth of every page, in page order. */
  function Depths(parse: string -> Url, ps: seq<PageRecord>): seq<nat> {
    if ps == [] then [] else Depths(parse, ps[..|ps| - 1]) + [PathDepth(parse(ps[|ps| - 1].url).path)]
  }

  lemma {:induction false} DepthsAt(parse: string -> Url, ps: seq<PageRecord>, i: nat)
    requires i < |ps|
    ensures |Depths(parse, ps)| == |ps| && Depths(parse, ps)[i] == PathDepth(parse(ps[i].url).path)
  {
    var init := ps[..|ps| - 1];
    DepthsLength(parse, init);
    if i < |init| {
      DepthsAt(parse, init, i);
    }
  }

  lemma {:induction false} DepthsLength(parse: string -> Url, ps: seq<PageRecord>)
    ensures |Depths(parse, ps)| == |ps|
  {
    if ps != [] {
      DepthsLength(parse, ps[..|ps| - 1]);
    }
  }

  predicate Deep(d: nat) {
    d > 3
  }

  /**
   * The "deep_pages" warning. The source compares the deep-page count with
   * `len(pages) * 0.3` in floating point; `10 * deep > 3 * n` is the same test
   * for every page count below 100000.
   */
  function DepthFindings(parse: string -> Url, ps: seq<PageRecord>): seq<Finding> {
    var dist := Tally(Depths(parse, ps));
    var deep := SumValuesIf(dist, Deep);
    if 10 * deep > 3 * |ps| then [DeepPages(deep, dist)] else []
  }

  /**
   * There is at most one depth warning. It is raised exactly when more than
   * 30% of the pages have more than three non-empty path segments, and it
   * carries that number of pages and a histogram with one entry per depth
   * whose counts add up to the number of pages.
   */
  lemma DepthWarning(parse: string -> Url, ps: seq<PageRecord>)
    ensures |DepthFindings(parse, ps)| <= 1
    ensures DepthFindings(parse, ps) != [] <==> 10 * CountIf(Depths(parse, ps), Deep) > 3 * |ps|
    ensures forall f :: f in DepthFindings(parse, ps) ==>
              && f.DeepPages?
              && f.deepPages == CountIf(Depths(parse, ps), Deep)
              && DistinctKeys(f.distribution)
              && SumValues(f.distribution) == |ps|
              && forall d :: Get(f.distribution, d, 0) == Count(Depths(parse, ps), d)
  {
    var xs := Depths(parse, ps);
    DepthsLength(parse, ps);
    TallySumIf(xs, Deep);
    TallySum(xs);
    TallyCounts(xs);
  }

  // ---- Duplicate titles and meta descriptions --------------------------------------

  function FieldValues(field: TextField, ps: seq<PageRecord>): (r: seq<string>)
    ensures |r| == |ps| && forall i :: 0 <= i < |ps| ==> r[i] == FieldOf(field, ps[i])
  {
    seq(|ps|, i requires 0 <= i < |ps| => FieldOf(field, ps[i]))
  }

  /** `{v: c for v, c in counter.items() if c > 1 and v}`, in the counter's order. */
  function SharedValues(counter: seq<(string, nat)>): seq<(string, nat)> {
    if counter == [] then []
    else
      var e := counter[|counter| - 1];
      SharedValues(counter[..|counter| - 1]) + (if e.1 > 1 && e.0 != "" then [e] else [])
  }

  lemma {:induction false} SharedValuesSpec(counter: seq<(string, nat)>)
    ensures forall e :: e in SharedValues(counter) <==> e in counter && e.1 > 1 && e.0 != ""
    ensures DistinctKeys(counter) ==> DistinctKeys(SharedValues(counter))
  {
    if counter != [] {
      var init := counter[..|counter| - 1];
      var e := counter[|counter| - 1];
      SharedValuesSpec(init);
      assert counter == init + [e];
      if DistinctKeys(counter) {
        assert DistinctKeys(init);
        forall x | x in SharedValues(init) ensures x.0 != e.0 {
          var j :| 0 <= j < |init| && init[j] == x;
          assert counter[j] == x;
        }
      }
    }
  }

  /** `[p["url"] for p in pages if p[field] == v]`. */
  function UrlsWith(field: TextField, ps: seq<PageRecord>, v: string): seq<string> {
    if ps == [] then []
    else
      var p := ps[|ps| - 1];
      UrlsWith(field, ps[..|ps| - 1], v) + (if FieldOf(field, p) == v then [p.url] else [])
  }

  /** The listed URLs are URLs of pages that carry the value. */
  lemma {:induction false} UrlsWithMembers(field: TextField, ps: seq<PageRecord>, v: string)
    ensures forall u :: u in UrlsWith(field, ps, v) ==>
              exists i :: 0 <= i < |ps| && ps[i].url == u && FieldOf(field, ps[i]) == v
  {
    if ps != [] {
      var init := ps[..|ps| - 1];
      UrlsWithMembers(field, init, v);
      assert forall i :: 0 <= i < |init| ==> init[i] == ps[i];
    }
  }

  function DuplicateFinding(field: TextField, ps: seq<PageRecord>, e: (string, nat)): Finding {
    Duplicated(field, e.0, e.1, Take(UrlsWith(field, ps, e.0), 5))
  }

  function DuplicateFindings(field: TextField, ps: seq<PageRecord>, entries: seq<(string, nat)>): seq<Finding> {
    if entries == [] then []
    else DuplicateFindings(field, ps, entries[..|entries| - 1]) + [DuplicateFinding(field, ps, entries[|entries| - 1])]
  }

  lemma DuplicateFindingsSnoc(field: TextField, ps: seq<PageRecord>, entries: seq<(string, nat)>, j: nat)
    requires j < |entries|
    ensures DuplicateFindings(field, ps, entries[..j + 1])
         == DuplicateFindings(field, ps, entries[..j]) + [DuplicateFinding(field, ps, entries[j])]
  {
    assert entries[..j + 1][..j] == entries[..j];
  }

  /** One finding per entry, in the entries' order. */
  lemma {:induction false} DuplicateFindingsLength(field: TextField, ps: seq<PageRecord>, entries: seq<(string, nat)>)
    ensures |DuplicateFindings(field, ps, entries)| == |entries|
  {
    if entries != [] {
      DuplicateFindingsLength(field, ps, entries[..|entries| - 1]);
    }
  }

  lemma {:induction false} DuplicateFindingsSpec(field: TextField, ps: seq<PageRecord>, entries: seq<(string, nat)>)
    ensures |DuplicateFindings(field, ps, entries)| == |entries|
    ensures forall i :: 0 <= i < |entries| ==> DuplicateFindings(field, ps, entries)[i] == DuplicateFinding(field, ps, entries[i])
  {
    DuplicateFindingsLength(field, ps, entries);
    if entries != [] {
      var init := entries[..|entries| - 1];
      DuplicateFindingsSpec(field, ps, init);
      forall i | 0 <= i < |init| ensures DuplicateFindings(field, ps, entries)[i] == DuplicateFinding(field, ps, entries[i]) {
        assert init[i] == entries[i];
      }
    }
  }

  /** The findings of the duplicate-title (or duplicate-meta) check. */
  function DuplicatesOf(field: TextField, ps: seq<PageRecord>): seq<Finding> {
    DuplicateFindings(field, ps, SharedOf(field, ps))
  }

  lemma GetMember<K, V>(d: seq<(K, V)>, e: (K, V), dv: V)
    requires DistinctKeys(d) && e in d
    ensures Get(d, e.0, dv) == e.1
  {
    var i :| 0 <= i < |d| && d[i] == e;
    FindUnique(d, e.0, i);
  }

  /** The shared values of a field: its non-empty values counted more than once, each once. */
  function SharedOf(field: TextField, ps: seq<PageRecord>): seq<(string, nat)> {
    SharedValues(Tally(FieldValues(field, ps)))
  }

  lemma SharedOfSpec(field: TextField, ps: seq<PageRecord>)
    ensures DistinctKeys(SharedOf(field, ps))
    ensures forall e :: e in SharedOf(field, ps) ==>
              e.0 != "" && e.1 == Count(FieldValues(field, ps), e.0) > 1
    ensures forall v :: v != "" && Count(FieldValues(field, ps), v) > 1 ==>
              exists e :: e in SharedOf(field, ps) && e.0 == v
  {
    var xs := FieldValues(field, ps);
    var counter := Tally(xs);
    TallyCounts(xs);
    SharedValuesSpec(counter);
    forall e | e in SharedOf(field, ps) ensures e.1 == Count(xs, e.0) {
      GetMember(counter, e, 0);
    }
    forall v | v != "" && Count(xs, v) > 1 ensures exists e :: e in SharedOf(field, ps) && e.0 == v {
      assert HasKey(counter, v);
      var j :| 0 <= j < |counter| && counter[j].0 == v;
      GetMember(counter, counter[j], 0);
    }
  }

  /**
   * Every duplicate finding names a non-empty value, counts the pages that
   * carry it (more than one) and lists at most five of them, all carrying it.
   */
  lemma DuplicatesSound(field: TextField, ps: seq<PageRecord>)
    ensures forall f :: f in DuplicatesOf(field, ps) ==> ReportsShared(field, ps, f)
  {
    var shared := SharedOf(field, ps);
    var r := DuplicatesOf(field, ps);
    SharedOfSpec(field, ps);
    DuplicateFindingsSpec(field, ps, shared);
    forall f | f in r ensures ReportsShared(field, ps, f) {
      var i :| 0 <= i < |r| && r[i] == f;
      assert shared[i] in shared;
      DuplicateFindingShape(field, ps, shared[i]);
    }
  }

  /** What a duplicate finding promises about the pages. */
  predicate ReportsShared(field: TextField, ps: seq<PageRecord>, f: Finding) {
    && f.Duplicated? && f.field == field && f.value != ""
    && f.count == Count(FieldValues(field, ps), f.value) > 1
    && |f.pages| <= 5
    && forall u :: u in f.pages ==> exists i :: 0 <= i < |ps| && ps[i].url == u && FieldOf(field, ps[i]) == f.value
  }

  lemma DuplicateFindingShape(field: TextField, ps: seq<PageRecord>, e: (string, nat))
    requires e.0 != "" && e.1 == Count(FieldValues(field, ps), e.0) > 1
    ensures ReportsShared(field, ps, DuplicateFinding(field, ps, e))
  {
    var f := DuplicateFinding(field, ps, e);
    var urls := UrlsWith(field, ps, e.0);
    UrlsWithMembers(field, ps, e.0);
    forall u | u in f.pages ensures u in urls {
      var k :| 0 <= k < |f.pages| && f.pages[k] == u;
      assert urls[k] == u;
    }
  }

  /** A value is reported exactly when it is non-empty and more than one page carries it. */
  lemma DuplicatesComplete(field: TextField, ps: seq<PageRecord>)
    ensures forall v :: (exists f :: f in DuplicatesOf(field, ps) && f.Duplicated? && f.value == v) <==>
              v != "" && Count(FieldValues(field, ps), v) > 1
  {
    var shared := SharedOf(field, ps);
    var r := DuplicatesOf(field, ps);
    DuplicatesSound(field, ps);
    SharedOfSpec(field, ps);
    DuplicateFindingsSpec(field, ps, shared);
    forall v | v != "" && Count(FieldValues(field, ps), v) > 1 ensures exists f :: f in r && f.Duplicated? && f.value == v {
      var e :| e in shared && e.0 == v;
      var k :| 0 <= k < |shared| && shared[k] == e;
      assert r[k] in r && r[k] == DuplicateFinding(field, ps, e);
    }
  }

  /** No value is reported twice. */
  lemma DuplicatesDistinct(field: TextField, ps: seq<PageRecord>)
    ensures forall i, j :: 0 <= i < j < |DuplicatesOf(field, ps)| ==>
              && DuplicatesOf(field, ps)[i].Duplicated? && DuplicatesOf(field, ps)[j].Duplicated?
              && DuplicatesOf(field, ps)[i].value != DuplicatesOf(field, ps)[j].value
  {
    var shared := SharedOf(field, ps);
    var r := DuplicatesOf(field, ps);
    SharedOfSpec(field, ps);
    DuplicateFindingsSpec(field, ps, shared);
    forall i, j | 0 <= i < j < |r| ensures r[i].Duplicated? && r[j].Duplicated? && r[i].value != r[j].value {
      assert r[i] == DuplicateFinding(field, ps, shared[i]);
      assert r[j] == DuplicateFinding(field, ps, shared[j]);
    }
  }

  // ---- Links without anchor text ------------------------------------------------------

  /** `by_page`: the links grouped by source page, pages in order of first appearance. */
  function GroupBySource(links: seq<LinkRecord>): seq<(string, seq<LinkRecord>)> {
    if links == [] then []
    else
      var g := GroupBySource(links[..|links| - 1]);
      var l := links[|links| - 1];
      Put(g, l.sourcePage, Get(g, l.sourcePage, []) + [l])
  }

  lemma GroupBySourceSnoc(links: seq<LinkRecord>, i: nat)
    requires i < |links|
    ensures GroupBySource(links[..i + 1]) ==
      Put(GroupBySource(links[..i]), links[i].sourcePage, Get(GroupBySource(links[..i]), links[i].sourcePage, []) + [links[i]])
  {
    assert links[..i + 1][..i] == links[..i];
  }

  /** The links whose source page is `page`, in order. */
  function FromSource(links: seq<LinkRecord>, page: string): seq<LinkRecord> {
    if links == [] then []
    else
      var l := links[|links| - 1];
      FromSource(links[..|links| - 1], page) + (if l.sourcePage == page then [l] else [])
  }

  /** Each source page is one group, holding exactly that page's links in order. */
  lemma {:induction false} GroupBySourceSpec(links: seq<LinkRecord>)
    ensures DistinctKeys(GroupBySource(links))
    ensures forall page :: Get(GroupBySource(links), page, []) == FromSource(links, page)
    ensures forall page :: HasKey(GroupBySource(links), page) <==> FromSource(links, page) != []
  {
    if links != [] {
      var init := links[..|links| - 1];
      var l := links[|links| - 1];
      var g := GroupBySource(init);
      GroupBySourceSpec(init);
      PutProperties(g, l.sourcePage, Get(g, l.sourcePage, []) + [l]);
    }
  }

  function GroupFindings(groups: seq<(string, seq<LinkRecord>)>): seq<Finding> {
    if groups == [] then []
    else GroupFindings(groups[..|groups| - 1]) + [UntitledLinks(groups[|groups| - 1].0, |groups[|groups| - 1].1|)]
  }

  lemma {:induction false} GroupFindingsSpec(groups: seq<(string, seq<LinkRecord>)>)
    ensures |GroupFindings(groups)| == |groups|
    ensures forall i :: 0 <= i < |groups| ==> GroupFindings(groups)[i] == UntitledLinks(groups[i].0, |groups[i].1|)
  {
    if groups != [] {
      GroupFindingsSpec(groups[..|groups| - 1]);
    }
  }

  /** The "untitled_links" warnings: the first 50 untitled links, grouped, first 10 groups. */
  function UntitledFindings(untitled: seq<LinkRecord>): seq<Finding> {
    GroupFindings(Take(GroupBySource(Take(untitled, 50)), 10))
  }

  /**
   * At most ten warnings, for distinct source pages; each counts the links
   * from its page among the first 50 untitled links, which is at least one.
   */
  lemma UntitledSpec(untitled: seq<LinkRecord>)
    ensures |UntitledFindings(untitled)| <= 10
    ensures untitled == [] ==> UntitledFindings(untitled) == []
    ensures forall f :: f in UntitledFindings(untitled) ==>
              f.UntitledLinks? && f.untitledCount == |FromSource(Take(untitled, 50), f.page)| > 0
    ensures forall i, j :: 0 <= i < j < |UntitledFindings(untitled)| ==>
              UntitledFindings(untitled)[i].page != UntitledFindings(untitled)[j].page
  {
    var first := Take(untitled, 50);
    var g := GroupBySource(first);
    var groups := Take(g, 10);
    var r := UntitledFindings(untitled);
    GroupBySourceSpec(first);
    GroupFindingsSpec(groups);
    forall f | f in r ensures f.UntitledLinks? && f.untitledCount == |FromSource(first, f.page)| > 0 {
      var i :| 0 <= i < |r| && r[i] == f;
      assert groups[i] == g[i];
      GetMember(g, g[i], []);
      assert HasKey(g, g[i].0);
    }
    forall i, j | 0 <= i < j < |r| ensures r[i].page != r[j].page {
      assert groups[i] == g[i] && groups[j] == g[j];
    }
  }

  // ---- Score and report ------------------------------------------------------------

  /** `min(100, max(0, 100 - 5 * issues - 2 * warnings))`. */
  function Score(issues: nat, warnings: nat): (r: int)
    ensures 0 <= r <= 100
  {
    Min(100, Max(0, 100 - 5 * issues - 2 * warnings))
  }

  /** A perfect score means no findings; the score never rises as findings are added. */
  lemma ScoreProperties(issues: nat, warnings: nat, moreIssues: nat, moreWarnings: nat)
    ensures Score(issues, warnings) == 100 <==> issues == 0 && warnings == 0
    ensures Score(issues, warnings) == 0 <==> 5 * issues + 2 * warnings >= 100
    ensures Score(issues + moreIssues, warnings + moreWarnings) <= Score(issues, warnings)
  {
  }

  datatype Summary = Summary(totalIssues: nat, totalWarnings: nat, totalPages: nat)

  datatype AuditReport = AuditReport(score: int, issues: seq<Finding>, warnings: seq<Finding>, summary: Summary)

  function ReportOf(issues: seq<Finding>, warnings: seq<Finding>, totalPages: nat): AuditReport {
    AuditReport(Score(|issues|, |warnings|), issues, warnings, Summary(|issues|, |warnings|, totalPages))
  }

  /** The issue list after an audit that starts from `prior`: the checks' issues, in the order `audit` runs them. */
  function IssuesAfter(prior: seq<Finding>, parse: string -> Url, ps: seq<PageRecord>, la: LinkAnalysis): seq<Finding> {
    prior
    + Findings(TitlePresence, parse, ps)
    + Findings(H1Multiple, parse, ps)
    + Findings(StatusBroken, parse, ps) + LinkFindings(la.brokenLinks)
    + DuplicatesOf(TitleField, ps)
  }

  /** The warning list after an audit that starts from `prior`, in the same order. */
  function WarningsAfter(prior: seq<Finding>, parse: string -> Url, ps: seq<PageRecord>, la: LinkAnalysis): seq<Finding> {
    prior
    + Findings(MetaPresence, parse, ps)
    + Findings(ContentLength, parse, ps)
    + Findings(H1Missing, parse, ps)
    + Findings(StatusRedirect, parse, ps)
    + Findings(CanonicalPath, parse, ps)
    + DepthFindings(parse, ps)
    + DuplicatesOf(MetaField, ps)
    + UntitledFindings(la.untitledLinks)
    + Findings(ImageAlt, parse, ps)
  }

  /** The report of a fresh auditor's `audit()`. */
  function AuditOf(parse: string -> Url, ps: seq<PageRecord>, la: LinkAnalysis): AuditReport {
    ReportOf(IssuesAfter([], parse, ps, la), WarningsAfter([], parse, ps, la), |ps|)
  }

  predicate IsIssueCheck(k: PageCheck) {
    k == TitlePresence || k == H1Multiple || k == StatusBroken
  }

  predicate AllHigh(fs: seq<Finding>) {
    forall f :: f in fs ==> SeverityOf(f) == High
  }

  predicate NoneHigh(fs: seq<Finding>) {
    forall f :: f in fs ==> SeverityOf(f) != High
  }

  lemma SeverityAppend(a: seq<Finding>, b: seq<Finding>)
    ensures AllHigh(a) && AllHigh(b) ==> AllHigh(a + b)
    ensures NoneHigh(a) && NoneHigh(b) ==> NoneHigh(a + b)
  {
  }

  /** The per-page checks that feed the issue list report high-severity findings, the others never do. */
  lemma PageFindingSeverity(k: PageCheck, parse: string -> Url, ps: seq<PageRecord>)
    ensures IsIssueCheck(k) ==> AllHigh(Findings(k, parse, ps))
    ensures !IsIssueCheck(k) ==> NoneHigh(Findings(k, parse, ps))
  {
    FindingsSpec(k, parse, ps);
  }

  lemma {:induction false} LinkFindingsHigh(bs: seq<BrokenLink>)
    ensures AllHigh(LinkFindings(bs))
  {
    if bs != [] {
      LinkFindingsHigh(bs[..|bs| - 1]);
      SeverityAppend(LinkFindings(bs[..|bs| - 1]), [DetectedOf(bs[|bs| - 1])]);
    }
  }

  /** Duplicate titles are high-severity findings, duplicate meta descriptions are not. */
  lemma {:induction false} DuplicateFindingsSeverity(field: TextField, ps: seq<PageRecord>, entries: seq<(string, nat)>)
    ensures field == TitleField ==> AllHigh(DuplicateFindings(field, ps, entries))
    ensures field == MetaField ==> NoneHigh(DuplicateFindings(field, ps, entries))
  {
    if entries != [] {
      var init := entries[..|entries| - 1];
      DuplicateFindingsSeverity(field, ps, init);
      SeverityAppend(DuplicateFindings(field, ps, init), [DuplicateFinding(field, ps, entries[|entries| - 1])]);
    }
  }

  lemma {:induction false} GroupFindingsNotHigh(groups: seq<(string, seq<LinkRecord>)>)
    ensures NoneHigh(GroupFindings(groups))
  {
    if groups != [] {
      var init := groups[..|groups| - 1];
      GroupFindingsNotHigh(init);
      SeverityAppend(GroupFindings(init), [UntitledLinks(groups[|groups| - 1].0, |groups[|groups| - 1].1|)]);
    }
  }

  /** Every issue has high severity. */
  lemma IssuesAreHigh(parse: string -> Url, ps: seq<PageRecord>, la: LinkAnalysis)
    ensures AllHigh(IssuesAfter([], parse, ps, la))
  {
    var a := Findings(TitlePresence, parse, ps);
    var b := Findings(H1Multiple, parse, ps);
    var c := Findings(StatusBroken, parse, ps);
    var d := LinkFindings(la.brokenLinks);
    var e := DuplicatesOf(TitleField, ps);
    PageFindingSeverity(TitlePresence, parse, ps);
    PageFindingSeverity(H1Multiple, parse, ps);
    PageFindingSeverity(StatusBroken, parse, ps);
    LinkFindingsHigh(la.brokenLinks);
    DuplicatesSeverity(TitleField, ps);
    SeverityAppend([], a);
    SeverityAppend([] + a, b);
    SeverityAppend([] + a + b, c);
    SeverityAppend([] + a + b + c, d);
    SeverityAppend([] + a + b + c + d, e);
  }

  lemma DepthFindingsNotHigh(parse: string -> Url, ps: seq<PageRecord>)
    ensures NoneHigh(DepthFindings(parse, ps))
  {
  }

  lemma UntitledNotHigh(untitled: seq<LinkRecord>)
    ensures NoneHigh(UntitledFindings(untitled))
  {
    GroupFindingsNotHigh(Take(GroupBySource(Take(untitled, 50)), 10));
  }

  lemma DuplicatesSeverity(field: TextField, ps: seq<PageRecord>)
    ensures field == TitleField ==> AllHigh(DuplicatesOf(field, ps))
    ensures field == MetaField ==> NoneHigh(DuplicatesOf(field, ps))
  {
    DuplicateFindingsSeverity(field, ps, SharedOf(field, ps));
  }

  lemma NoneHighConcat(a: seq<Finding>, b: seq<Finding>, c: seq<Finding>, d: seq<Finding>, e: seq<Finding>,
                       f: seq<Finding>, g: seq<Finding>, h: seq<Finding>, i: seq<Finding>)
    requires NoneHigh(a) && NoneHigh(b) && NoneHigh(c) && NoneHigh(d) && NoneHigh(e)
    requires NoneHigh(f) && NoneHigh(g) && NoneHigh(h) && NoneHigh(i)
    ensures NoneHigh([] + a + b + c + d + e + f + g + h + i)
  {
    SeverityAppend([], a);
    SeverityAppend([] + a, b);
    SeverityAppend([] + a + b, c);
    SeverityAppend([] + a + b + c, d);
    SeverityAppend([] + a + b + c + d, e);
    SeverityAppend([] + a + b + c + d + e, f);
    SeverityAppend([] + a + b + c + d + e + f, g);
    SeverityAppend([] + a + b + c + d + e + f + g, h);
    SeverityAppend([] + a + b + c + d + e + f + g + h, i);
  }

  /** No warning has high severity. */
  lemma WarningsAreNotHigh(parse: string -> Url, ps: seq<PageRecord>, la: LinkAnalysis)
    ensures NoneHigh(WarningsAfter([], parse, ps, la))
  {
    PageFindingSeverity(MetaPresence, parse, ps);
    PageFindingSeverity(ContentLength, parse, ps);
    PageFindingSeverity(H1Missing, parse, ps);
    PageFindingSeverity(StatusRedirect, parse, ps);
    PageFindingSeverity(CanonicalPath, parse, ps);
    PageFindingSeverity(ImageAlt, parse, ps);
    DepthFindingsNotHigh(parse, ps);
    DuplicatesSeverity(MetaField, ps);
    UntitledNotHigh(la.untitledLinks);
    NoneHighConcat(Findings(MetaPresence, parse, ps), Findings(ContentLength, parse, ps),
                   Findings(H1Missing, parse, ps), Findings(StatusRedirect, parse, ps),
                   Findings(CanonicalPath, parse, ps), DepthFindings(parse, ps), DuplicatesOf(MetaField, ps),
                   UntitledFindings(la.untitledLinks), Findings(ImageAlt, parse, ps));
  }

  /**
   * The audit's summary counts its lists and its pages, and its score lies
   * in [0, 100] and is 100 exactly when nothing was found. Every issue has
   * high severity and no warning does.
   */
  lemma AuditProperties(parse: string -> Url, ps: seq<PageRecord>, la: LinkAnalysis)
    ensures var r := AuditOf(parse, ps, la);
      && 0 <= r.score <= 100
      && (r.score == 100 <==> r.issues == [] && r.warnings == [])
      && r.summary == Summary(|r.issues|, |r.warnings|, |ps|)
      && (forall f :: f in r.issues ==> SeverityOf(f) == High)
      && (forall f :: f in r.warnings ==> SeverityOf(f) != High)
  {
    var r := AuditOf(parse, ps, la);
    ScoreProperties(|r.issues|, |r.warnings|, 0, 0);
    IssuesAreHigh(parse, ps, la);
    WarningsAreNotHigh(parse, ps, la);
  }

  // ---- The auditor -----------------------------------------------------------------

  class SEOAuditor {
    const pages: seq<PageRecord>
    const linkAnalysis: LinkAnalysis
    const parse: string -> Url
    var issues: seq<Finding>
    var warnings: seq<Finding>

    constructor(results: CrawlResult, parse: string -> Url)
      ensures pages == results.pages && linkAnalysis == results.linkAnalysis && this.parse == parse
      ensures issues == [] && warnings == []
    {
      pages := results.pages;
      linkAnalysis := results.linkAnalysis;
      this.parse := parse;
      issues := [];
      warnings := [];
    }

    /** Runs every check in the source's order and scores the result. */
    method Audit() returns (report: AuditReport)
      modifies this`issues, this`warnings
      ensures issues == IssuesAfter(old(issues), parse, pages, linkAnalysis)
      ensures warnings == WarningsAfter(old(warnings), parse, pages, linkAnalysis)
      ensures report == ReportOf(issues, warnings, |pages|)
    {
      RunChecks();
      var score := Max(0, 100 - |issues| * 5 - |warnings| * 2);
      score := Min(100, score);
      report := AuditReport(score, issues, warnings, Summary(|issues|, |warnings|, |pages|));
    }

    /** The checks of `audit`, in the order it runs them. */
    method RunChecks()
      modifies this`issues, this`warnings
      ensures issues == IssuesAfter(old(issues), parse, pages, linkAnalysis)
      ensures warnings == WarningsAfter(old(warnings), parse, pages, linkAnalysis)
    {
      CheckMissingTitles();
      CheckMissingMetaDescriptions();
      CheckShortContent();
      CheckDuplicateH1();
      CheckBrokenLinks();
      CheckRedirectChains();
      CheckCanonicalIssues();
      // _check_sitemap and _check_robots_txt have empty bodies.
      CheckPageDepth();
      CheckDuplicateTitles();
      CheckDuplicateMetaDescriptions();
      CheckUntitledLinks();
      CheckImageAltText();
    }

    method CheckMissingTitles()
      modifies this`issues
      ensures issues == old(issues) + Findings(TitlePresence, parse, pages)
    {
      var i := 0;
      while i < |pages|
        invariant 0 <= i <= |pages|
        invariant issues == old(issues) + FindingsUpTo(TitlePresence, parse, pages, i)
      {
        var page := pages[i];
        StripEmptyIffBlank(page.title);
        if page.title == "" || Strip(page.title) == "" {
          assert Check(TitlePresence, parse, page) == [MissingTitle(page.url)];
          issues := issues + [MissingTitle(page.url)];
        } else {
          assert Check(TitlePresence, parse, page) == [];
        }
        i := i + 1;
      }
    }

    method CheckMissingMetaDescriptions()
      modifies this`warnings
      ensures warnings == old(warnings) + Findings(MetaPresence, parse, pages)
    {
      var i := 0;
      while i < |pages|
        invariant 0 <= i <= |pages|
        invariant warnings == old(warnings) + FindingsUpTo(MetaPresence, parse, pages, i)
      {
        var page := pages[i];
        StripEmptyIffBlank(page.metaDescription);
        if page.metaDescription == "" || Strip(page.metaDescription) == "" {
          assert Check(MetaPresence, parse, page) == [MissingMetaDescription(page.url)];
          warnings := warnings + [MissingMetaDescription(page.url)];
        } else {
          assert Check(MetaPresence, parse, page) == [];
        }
        i := i + 1;
      }
    }

    method CheckShortContent()
      modifies this`warnings
      ensures warnings == old(warnings) + Findings(ContentLength, parse, pages)
    {
      var i := 0;
      while i < |pages|
        invariant 0 <= i <= |pages|
        invariant warnings == old(warnings) + FindingsUpTo(ContentLength, parse, pages, i)
      {
        var page := pages[i];
        if page.wordCount < 300 {
          assert Check(ContentLength, parse, page) == [ShortContent(page.url, page.wordCount)];
          warnings := warnings + [ShortContent(page.url, page.wordCount)];
        } else {
          assert Check(ContentLength, parse, page) == [];
        }
        i := i + 1;
      }
    }

    /** Several H1 tags make an issue, none a warning. */
    method CheckDuplicateH1()
      modifies this`issues, this`warnings
      ensures issues == old(issues) + Findings(H1Multiple, parse, pages)
      ensures warnings == old(warnings) + Findings(H1Missing, parse, pages)
    {
      var i := 0;
      while i < |pages|
        invariant 0 <= i <= |pages|
        invariant issues == old(issues) + FindingsUpTo(H1Multiple, parse, pages, i)
        invariant warnings == old(warnings) + FindingsUpTo(H1Missing, parse, pages, i)
      {
        var page := pages[i];
        if |page.h1| > 1 {
          assert Check(H1Multiple, parse, page) == [MultipleH1(page.url, page.h1)] && Check(H1Missing, parse, page) == [];
          issues := issues + [MultipleH1(page.url, page.h1)];
        } else if |page.h1| == 0 {
          assert Check(H1Multiple, parse, page) == [] && Check(H1Missing, parse, page) == [MissingH1(page.url)];
          warnings := warnings + [MissingH1(page.url)];
        } else {
          assert Check(H1Multiple, parse, page) == [] && Check(H1Missing, parse, page) == [];
        }
        i := i + 1;
      }
    }

    /** Pages answered with an error status, then every broken link the crawler registered. */
    method CheckBrokenLinks()
      modifies this`issues
      ensures issues == old(issues) + Findings(StatusBroken, parse, pages) + LinkFindings(linkAnalysis.brokenLinks)
    {
      var i := 0;
      while i < |pages|
        invariant 0 <= i <= |pages|
        invariant issues == old(issues) + FindingsUpTo(StatusBroken, parse, pages, i)
      {
        var page := pages[i];
        if page.statusCode in BrokenStatusCodes {
          assert Check(StatusBroken, parse, page) == [BrokenPage(page.url, page.statusCode, StatusMessage(page.statusCode))];
          issues := issues + [BrokenPage(page.url, page.statusCode, StatusMessage(page.statusCode))];
        } else {
          assert Check(StatusBroken, parse, page) == [];
        }
        i := i + 1;
      }
      ReportBrokenLinks();
    }

    /** The second loop of `_check_broken_links`: one issue per broken link the crawler registered. */
    method ReportBrokenLinks()
      modifies this`issues
      ensures issues == old(issues) + LinkFindings(linkAnalysis.brokenLinks)
    {
      var broken := linkAnalysis.brokenLinks;
      var j := 0;
      while j < |broken|
        invariant 0 <= j <= |broken|
        invariant issues == old(issues) + LinkFindings(broken[..j])
      {
        assert broken[..j + 1][..j] == broken[..j];
        issues := issues + [DetectedOf(broken[j])];
        j := j + 1;
      }
      assert broken[..j] == broken;
    }

    method CheckRedirectChains()
      modifies this`warnings
      ensures warnings == old(warnings) + Findings(StatusRedirect, parse, pages)
    {
      var i := 0;
      while i < |pages|
        invariant 0 <= i <= |pages|
        invariant warnings == old(warnings) + FindingsUpTo(StatusRedirect, parse, pages, i)
      {
        var page := pages[i];
        if page.statusCode in RedirectCodes {
          assert Check(StatusRedirect, parse, page) == [Redirect(page.url, page.statusCode)];
          warnings := warnings + [Redirect(page.url, page.statusCode)];
        } else {
          assert Check(StatusRedirect, parse, page) == [];
        }
        i := i + 1;
      }
    }

    method CheckCanonicalIssues()
      modifies this`warnings
      ensures warnings == old(warnings) + Findings(CanonicalPath, parse, pages)
    {
      var i := 0;
      while i < |pages|
        invariant 0 <= i <= |pages|
        invariant warnings == old(warnings) + FindingsUpTo(CanonicalPath, parse, pages, i)
      {
        var page := pages[i];
        if page.canonical != "" && page.canonical != page.url {
          var parsedCanonical := parse(page.canonical);
          var parsedPage := parse(page.url);
          if parsedCanonical.path != parsedPage.path {
            assert Check(CanonicalPath, parse, page) == [CanonicalMismatch(page.url, page.canonical)];
            warnings := warnings + [CanonicalMismatch(page.url, page.canonical)];
          } else {
            assert Check(CanonicalPath, parse, page) == [];
          }
        } else {
          assert Check(CanonicalPath, parse, page) == [];
        }
        i := i + 1;
      }
    }

    /** Warns once if the pages deeper than three path segments exceed 30% of the pages. */
    method CheckPageDepth()
      modifies this`warnings
      ensures warnings == old(warnings) + DepthFindings(parse, pages)
    {
      var distribution := DepthDistribution();
      var deepPages := SumValuesIf(distribution, Deep);
      if 10 * deepPages > 3 * |pages| {
        warnings := warnings + [DeepPages(deepPages, distribution)];
      }
    }

    /** The loop of `_check_page_depth` that counts the pages per path depth. */
    method DepthDistribution() returns (distribution: seq<(nat, nat)>)
      ensures distribution == Tally(Depths(parse, pages))
    {
      ghost var depths := Depths(parse, pages);
      DepthsLength(parse, pages);
      distribution := [];
      var i := 0;
      while i < |pages|
        invariant 0 <= i <= |pages|
        invariant distribution == Tally(depths[..i])
      {
        var depth := PathDepth(parse(pages[i].url).path);
        DepthsAt(parse, pages, i);
        TallySnoc(depths, i);
        distribution := Put<nat, nat>(distribution, depth, Get<nat, nat>(distribution, depth, 0) + 1);
        i := i + 1;
      }
      assert depths[..i] == depths;
    }

    method CheckDuplicateTitles()
      modifies this`issues
      ensures issues == old(issues) + DuplicatesOf(TitleField, pages)
    {
      var counter := Tally(FieldValues(TitleField, pages));
      var duplicates := SharedValues(counter);
      var j := 0;
      while j < |duplicates|
        invariant 0 <= j <= |duplicates|
        invariant issues == old(issues) + DuplicateFindings(TitleField, pages, duplicates[..j])
      {
        var title := duplicates[j].0;
        var pagesWithTitle := UrlsWith(TitleField, pages, title);
        DuplicateFindingsSnoc(TitleField, pages, duplicates, j);
        issues := issues + [Duplicated(TitleField, title, duplicates[j].1, Take(pagesWithTitle, 5))];
        j := j + 1;
      }
      assert duplicates[..j] == duplicates;
    }

    method CheckDuplicateMetaDescriptions()
      modifies this`warnings
      ensures warnings == old(warnings) + DuplicatesOf(MetaField, pages)
    {
      var counter := Tally(FieldValues(MetaField, pages));
      var duplicates := SharedValues(counter);
      var j := 0;
      while j < |duplicates|
        invariant 0 <= j <= |duplicates|
        invariant warnings == old(warnings) + DuplicateFindings(MetaField, pages, duplicates[..j])
      {
        var meta := duplicates[j].0;
        var pagesWithMeta := UrlsWith(MetaField, pages, meta);
        DuplicateFindingsSnoc(MetaField, pages, duplicates, j);
        warnings := warnings + [Duplicated(MetaField, meta, duplicates[j].1, Take(pagesWithMeta, 5))];
        j := j + 1;
      }
      assert duplicates[..j] == duplicates;
    }

    /** Groups the first 50 untitled links by source page and warns for the first 10 pages. */
    method CheckUntitledLinks()
      modifies this`warnings
      ensures warnings == old(warnings) + UntitledFindings(linkAnalysis.untitledLinks)
    {
      var untitled := linkAnalysis.untitledLinks;
      if untitled != [] {
        var byPage := GroupUntitled(Take(untitled, 50));
        ReportUntitledGroups(Take(byPage, 10));
      }
    }

    /** The `by_page` loop of `_check_untitled_links`. */
    static method GroupUntitled(links: seq<LinkRecord>) returns (byPage: seq<(string, seq<LinkRecord>)>)
      ensures byPage == GroupBySource(links)
    {
      byPage := [];
      var i := 0;
      while i < |links|
        invariant 0 <= i <= |links|
        invariant byPage == GroupBySource(links[..i])
      {
        var link := links[i];
        GroupBySourceSnoc(links, i);
        byPage := Put(byPage, link.sourcePage, Get(byPage, link.sourcePage, []) + [link]);
        i := i + 1;
      }
      assert links[..i] == links;
    }

    /** The loop of `_check_untitled_links` that turns each group into a warning. */
    method ReportUntitledGroups(groups: seq<(string, seq<LinkRecord>)>)
      modifies this`warnings
      ensures warnings == old(warnings) + GroupFindings(groups)
    {
      var j := 0;
      while j < |groups|
        invariant 0 <= j <= |groups|
        invariant warnings == old(warnings) + GroupFindings(groups[..j])
      {
        var (pageUrl, links) := groups[j];
        assert groups[..j + 1][..j] == groups[..j];
        warnings := warnings + [UntitledLinks(pageUrl, |links|)];
        j := j + 1;
      }
      assert groups[..j] == groups;
    }


    method CheckImageAltText()
      modifies this`warnings
      ensures warnings == old(warnings) + Findings(ImageAlt, parse, pages)
    {
      var i := 0;
      while i < |pages|
        invariant 0 <= i <= |pages|
        invariant warnings == old(warnings) + FindingsUpTo(ImageAlt, parse, pages, i)
      {
        var page := pages[i];
        var withoutAlt := MissingAltCount(page.images);
        if withoutAlt > 0 {
          assert Check(ImageAlt, parse, page) == [MissingImageAlt(page.url, withoutAlt)];
          warnings := warnings + [MissingImageAlt(page.url, withoutAlt)];
        } else {
          assert Check(ImageAlt, parse, page) == [];
        }
        i := i + 1;
      }
    }
  }
}
