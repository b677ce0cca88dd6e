/**
 * The records the crawl produces and the analysers consume. The HTML parser
 * is abstracted away: a fetched page arrives as a `Doc`, the facts that
 * BeautifulSoup would have extracted from its markup.
 */
module Pages {
  import opened Wrappers

  /** An `<a href=...>` element: its raw href, its stripped visible text and its title attribute. */
  datatype Anchor = Anchor(href: string, text: string, title: string)

  /** An `<img>` element; an absent attribute is the empty string. */
  datatype ImageTag = ImageTag(src: string, dataSrc: string, dataLazySrc: string, alt: string)

  /**
   * A parsed page. Read from the whole markup: the first title's stripped
   * text, the description meta content, the raw canonical href and the
   * stripped h1 and h2 texts in document order. Read once the script, style,
   * nav, footer and header elements are removed: the anchors that carry an
   * href, the id and name values, the images and the space-joined visible
   * text.
   */
  datatype Doc = Doc(
    title: string,
    metaDescription: string,
    canonical: string,
    h1: seq<string>,
    h2: seq<string>,
    anchors: seq<Anchor>,
    ids: set<string>,
    names: set<string>,
    images: seq<ImageTag>,
    text: string)

  /** What the fetch returns: the final status code and the parsed body. */
  datatype Response = Response(status: int, doc: Doc)

  datatype LinkRecord = LinkRecord(
    url: string,
    href: string,
    anchorText: string,
    title: string,
    isUntitled: bool,
    internal: bool,
    sourcePage: string)

  datatype BrokenIssue = EmptyHref | BrokenAnchor(target: string)

  datatype BrokenLink = BrokenLink(link: LinkRecord, issue: BrokenIssue)

  function IssueName(i: BrokenIssue): string {
    match i
    case EmptyHref => "Empty href"
    case BrokenAnchor(_) => "Broken anchor link"
  }

  function IssueReason(i: BrokenIssue): string {
    match i
    case EmptyHref => "Link has no href attribute"
    case BrokenAnchor(t) => "Target '" + t + "' not found on page"
  }

  datatype Backlink = Backlink(fromUrl: string, anchorText: string, title: string)

  datatype ImageRecord = ImageRecord(url: string, alt: string, pageUrl: string)

  /**
   * One crawled page. `backlinksCount` is the size of the page's backlink list
   * when the page was parsed; `backlinksShared` says whether the record's
   * backlink list is the crawler's live list for this URL (it is when the URL
   * already had backlinks at that moment) or a fresh empty one.
   */
  datatype PageRecord = PageRecord(
    url: string,
    statusCode: int,
    title: string,
    metaDescription: string,
    canonical: string,
    h1: seq<string>,
    h2: seq<string>,
    content: string,
    wordCount: nat,
    contentHash: string,
    internalLinks: seq<string>,
    externalLinks: seq<string>,
    images: seq<ImageRecord>,
    allLinks: seq<LinkRecord>,
    brokenLinksOnPage: seq<BrokenLink>,
    backlinksCount: nat,
    backlinksShared: bool,
    crawlDepth: nat)

  function InternalOnly(links: seq<LinkRecord>): (r: seq<LinkRecord>)
    ensures |r| <= |links|
  {
    if links == [] then []
    else InternalOnly(links[..|links| - 1]) + (if links[|links| - 1].internal then [links[|links| - 1]] else [])
  }

  function ExternalOnly(links: seq<LinkRecord>): (r: seq<LinkRecord>)
    ensures |r| <= |links|
  {
    if links == [] then []
    else ExternalOnly(links[..|links| - 1]) + (if links[|links| - 1].internal then [] else [links[|links| - 1]])
  }

  /** `[l for l in all_links if l["internal"]]` and its complement split the page's links. */
  lemma {:induction false} InternalExternalSplit(links: seq<LinkRecord>)
    ensures |InternalOnly(links)| + |ExternalOnly(links)| == |links|
    ensures forall l :: l in InternalOnly(links) <==> l in links && l.internal
    ensures forall l :: l in ExternalOnly(links) <==> l in links && !l.internal
  {
    if links != [] {
      var init := links[..|links| - 1];
      InternalExternalSplit(init);
      assert links == init + [links[|links| - 1]];
    }
  }

  /** The page's backlink list as the final result shows it, given the crawler's final backlink map. */
  function ObservedBacklinks(p: PageRecord, finalBacklinks: map<string, seq<Backlink>>): seq<Backlink> {
    if p.backlinksShared && p.url in finalBacklinks then finalBacklinks[p.url] else []
  }

  /** Crawl summary; `avgWordCount` is exact (the source divides in floating point). */
  datatype Stats = Stats(
    totalPages: nat,
    totalWords: nat,
    avgWordCount: real,
    pagesWithTitle: nat,
    pagesWithMeta: nat,
    totalImages: nat,
    totalLinks: nat,
    statusCodes: seq<(int, nat)>)

  datatype LinkAnalysis = LinkAnalysis(
    totalInternalLinks: nat,
    totalExternalLinks: nat,
    untitledLinks: seq<LinkRecord>,
    brokenLinks: seq<BrokenLink>,
    internalLinksDetailed: seq<LinkRecord>,
    externalLinksDetailed: seq<LinkRecord>)

  /** The crawl's output; `stats` is None where the source returns `{}` (no pages). */
  datatype CrawlResult = CrawlResult(
    pages: seq<PageRecord>,
    links: set<string>,
    images: seq<ImageRecord>,
    stats: Option<Stats>,
    linkAnalysis: LinkAnalysis,
    backlinksMap: map<string, seq<Backlink>>)
}
