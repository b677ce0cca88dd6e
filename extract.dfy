/**
 * The pure rules of `_parse_html` in the crawler: how one anchor is resolved
 * and classified (internal or external, untitled, broken), which anchors add a
 * backlink and which become crawl candidates, how images and the canonical
 * link are resolved, and what the page record of one parse holds. The crawler
 * class applies these rules anchor by anchor; the functions here are their
 * specification, written so that a prefix of the anchors can be extended by
 * one anchor at a time.
 */
module Extract {
  import opened Wrappers
  import opened Text
  import opened Urls
  import opened Pages
  import opened Dicts

  /** What the parse of one page depends on besides the page's own markup. */
  datatype PageCtx = PageCtx(
    parse: string -> Url,
    join: (string, string) -> string,
    baseDomain: string,
    pageUrl: string,
    visited: set<string>,
    ids: set<string>,
    names: set<string>)

  function AbsoluteUrl(c: PageCtx, a: Anchor): string {
    c.join(c.pageUrl, a.href)
  }

  /** `urlparse(self.base_domain).netloc`. */
  function BaseNetloc(c: PageCtx): string {
    c.parse(c.baseDomain).netloc
  }

  /** An anchor is internal iff its resolved URL has the base netloc or no netloc at all. */
  predicate IsInternal(c: PageCtx, a: Anchor) {
    var n := c.parse(AbsoluteUrl(c, a)).netloc;
    n == BaseNetloc(c) || n == ""
  }

  /** An anchor is untitled iff its visible text is empty after stripping. */
  predicate IsUntitled(a: Anchor) {
    IsBlank(a.text)
  }

  function LinkOf(c: PageCtx, a: Anchor): LinkRecord {
    LinkRecord(AbsoluteUrl(c, a), a.href, a.text, a.title, IsUntitled(a), IsInternal(c, a), c.pageUrl)
  }

  /**
   * The key under which an anchor records a backlink: its normalised URL, when
   * the anchor is internal and the normalised URL starts with the base domain.
   */
  function BacklinkKey(c: PageCtx, a: Anchor): Option<string> {
    if IsInternal(c, a) then
      var k := NormalizeUrl(c.parse, AbsoluteUrl(c, a));
      if StartsWith(k, c.baseDomain) then Some(k) else None
    else None
  }

  function BacklinkOf(c: PageCtx, a: Anchor): Backlink {
    Backlink(c.pageUrl, a.text, a.title)
  }

  predicate HasScriptOrAnchorPrefix(href: string) {
    StartsWith(href, "javascript:") || StartsWith(href, "mailto:") || StartsWith(href, "tel:")
    || StartsWith(href, "#")
  }

  /** The broken-link verdict for one href, in the order the source tests it. */
  function BrokenIssueOf(c: PageCtx, href: string): Option<BrokenIssue> {
    if href == "" || HasScriptOrAnchorPrefix(href) then
      if href != "" && StartsWith(href, "#") then
        var target := href[1..];
        if target !in c.ids && target !in c.names then Some(BrokenAnchor(target)) else None
      else if href == "" then Some(EmptyHref)
      else None
    else None
  }

  // ---- What one anchor contributes ---------------------------------------------

  /** The anchor's crawl candidate: its backlink key, when that URL is still unvisited. */
  function CandidateOf(c: PageCtx, a: Anchor): seq<string> {
    match BacklinkKey(c, a)
    case Some(k) => if k !in c.visited then [k] else []
    case None => []
  }

  function ExternalOf(c: PageCtx, a: Anchor): seq<string> {
    if IsInternal(c, a) then [] else [AbsoluteUrl(c, a)]
  }

  function BrokenOf(c: PageCtx, link: LinkRecord): seq<BrokenLink> {
    match BrokenIssueOf(c, link.href)
    case Some(i) => [BrokenLink(link, i)]
    case None => []
  }

  /** The backlink map after recording one anchor: appended to the list under its key, created if absent. */
  function AddBacklink(m: map<string, seq<Backlink>>, c: PageCtx, a: Anchor): map<string, seq<Backlink>> {
    match BacklinkKey(c, a)
    case Some(k) => m[k := MapGet(m, k) + [BacklinkOf(c, a)]]
    case None => m
  }

  // ---- Aggregates over a prefix of the page's anchors ------------------------

  function Links(c: PageCtx, anchors: seq<Anchor>): (r: seq<LinkRecord>)
    ensures |r| == |anchors|
  {
    if anchors == [] then []
    else Links(c, anchors[..|anchors| - 1]) + [LinkOf(c, anchors[|anchors| - 1])]
  }

  function LinkUrls(c: PageCtx, anchors: seq<Anchor>): set<string> {
    set i | 0 <= i < |anchors| :: AbsoluteUrl(c, anchors[i])
  }

  lemma LinkUrlsSnoc(c: PageCtx, anchors: seq<Anchor>, i: nat)
    requires i < |anchors|
    ensures LinkUrls(c, anchors[..i + 1]) == LinkUrls(c, anchors[..i]) + {AbsoluteUrl(c, anchors[i])}
  {
    var pre, ext := anchors[..i], anchors[..i + 1];
    forall u ensures u in LinkUrls(c, ext) <==> u in LinkUrls(c, pre) || u == AbsoluteUrl(c, anchors[i]) {
      if u in LinkUrls(c, ext) {
        var j :| 0 <= j < i + 1 && AbsoluteUrl(c, ext[j]) == u;
        if j < i {
          assert pre[j] == ext[j];
        }
      }
      if u in LinkUrls(c, pre) {
        var j :| 0 <= j < i && AbsoluteUrl(c, pre[j]) == u;
        assert ext[j] == pre[j];
      }
    }
  }

  /** Extending a prefix of the anchors by the next anchor extends each aggregate by that anchor's contribution. */
  lemma AnchorsSnoc(m: map<string, seq<Backlink>>, c: PageCtx, anchors: seq<Anchor>, i: nat)
    requires i < |anchors|
    ensures Links(c, anchors[..i + 1]) == Links(c, anchors[..i]) + [LinkOf(c, anchors[i])]
    ensures LinkUrls(c, anchors[..i + 1]) == LinkUrls(c, anchors[..i]) + {AbsoluteUrl(c, anchors[i])}
    ensures Candidates(c, anchors[..i + 1]) == Candidates(c, anchors[..i]) + CandidateOf(c, anchors[i])
    ensures Externals(c, anchors[..i + 1]) == Externals(c, anchors[..i]) + ExternalOf(c, anchors[i])
    ensures Brokens(c, anchors[..i + 1]) == Brokens(c, anchors[..i]) + BrokenOf(c, LinkOf(c, anchors[i]))
    ensures AddBacklinks(m, c, anchors[..i + 1]) == AddBacklink(AddBacklinks(m, c, anchors[..i]), c, anchors[i])
  {
    assert anchors[..i + 1][..i] == anchors[..i];
    LinkUrlsSnoc(c, anchors, i);
  }

  /** Normalised internal targets under the base domain that were unvisited, in document order. */
  function Candidates(c: PageCtx, anchors: seq<Anchor>): (r: seq<string>)
    ensures forall k :: 0 <= k < |r| ==> r[k] !in c.visited && StartsWith(r[k], c.baseDomain)
  {
    if anchors == [] then []
    else
      var a := anchors[|anchors| - 1];
      Candidates(c, anchors[..|anchors| - 1]) + CandidateOf(c, a)
  }

  /** Resolved URLs of the external anchors, in document order. */
  function Externals(c: PageCtx, anchors: seq<Anchor>): seq<string> {
    if anchors == [] then []
    else
      var a := anchors[|anchors| - 1];
      Externals(c, anchors[..|anchors| - 1]) + ExternalOf(c, a)
  }

  function Brokens(c: PageCtx, anchors: seq<Anchor>): seq<BrokenLink> {
    if anchors == [] then []
    else
      var a := anchors[|anchors| - 1];
      Brokens(c, anchors[..|anchors| - 1]) + BrokenOf(c, LinkOf(c, a))
  }

  /** Number of anchors the broken-link check flags. */
  function FlaggedCount(c: PageCtx, anchors: seq<Anchor>): nat {
    if anchors == [] then 0
    else FlaggedCount(c, anchors[..|anchors| - 1]) + (if BrokenIssueOf(c, anchors[|anchors| - 1].href).Some? then 1 else 0)
  }

  function MapGet(m: map<string, seq<Backlink>>, k: string): seq<Backlink> {
    if k in m then m[k] else []
  }

  /** The backlink map after recording the anchors' backlinks. */
  function AddBacklinks(m: map<string, seq<Backlink>>, c: PageCtx, anchors: seq<Anchor>): map<string, seq<Backlink>> {
    if anchors == [] then m
    else AddBacklink(AddBacklinks(m, c, anchors[..|anchors| - 1]), c, anchors[|anchors| - 1])
  }

  /** The backlink entries the anchors contribute under key k, in document order. */
  function EntriesFor(c: PageCtx, anchors: seq<Anchor>, k: string): seq<Backlink> {
    if anchors == [] then []
    else
      var a := anchors[|anchors| - 1];
      EntriesFor(c, anchors[..|anchors| - 1], k) + (if BacklinkKey(c, a) == Some(k) then [BacklinkOf(c, a)] else [])
  }

  function ImageSrc(img: ImageTag): string {
    if img.src != "" then img.src else if img.dataSrc != "" then img.dataSrc else img.dataLazySrc
  }

  function ImagesOf(c: PageCtx, imgs: seq<ImageTag>): seq<ImageRecord> {
    if imgs == [] then []
    else
      var img := imgs[|imgs| - 1];
      ImagesOf(c, imgs[..|imgs| - 1])
      + (if ImageSrc(img) != "" then [ImageRecord(c.join(c.pageUrl, ImageSrc(img)), img.alt, c.pageUrl)] else [])
  }

  /** A canonical href not starting with "http" is resolved against the page URL. */
  function CanonicalOf(c: PageCtx, canonical: string): string {
    if canonical != "" && !StartsWith(canonical, "http") then c.join(c.pageUrl, canonical) else canonical
  }

  // ---- list(set(xs)) ----------------------------------------------------------

  predicate NoDup<T(==)>(xs: seq<T>) {
    forall i, j :: 0 <= i < j < |xs| ==> xs[i] != xs[j]
  }

  /** xs lists every element of ys exactly once, in some order. */
  predicate Enumerates(xs: seq<string>, ys: seq<string>) {
    NoDup(xs) && (forall x :: x in xs ==> x in ys) && (forall x :: x in ys ==> x in xs)
  }

  /** One duplicate-free enumeration: first occurrences in order. */
  function Dedup(ys: seq<string>): (r: seq<string>)
    ensures Enumerates(r, ys)
  {
    if ys == [] then []
    else
      var d := Dedup(ys[..|ys| - 1]);
      var y := ys[|ys| - 1];
      assert forall x :: x in ys <==> x in ys[..|ys| - 1] || x == y by {
        assert ys == ys[..|ys| - 1] + [y];
      }
      if y in d then d else d + [y]
  }

  // ---- The page record of one parse -------------------------------------------

  /**
   * The record `_parse_html` returns for `doc` fetched with `status`, given the
   * crawl depth, the crawler's backlink map once the page's own anchors are
   * recorded, and the list built from the set of unvisited internal targets.
   */
  function Extracted(c: PageCtx, digest: string -> string, status: int, depth: nat, doc: Doc,
                     after: map<string, seq<Backlink>>, internalLinks: seq<string>): PageRecord {
    PageRecord(c.pageUrl, status, doc.title, doc.metaDescription, CanonicalOf(c, doc.canonical), doc.h1,
               Take(doc.h2, 20), Take(doc.text, 10000), |Words(doc.text)|, digest(doc.text), internalLinks,
               Take(Externals(c, doc.anchors), 50), ImagesOf(c, doc.images), Links(c, doc.anchors),
               Brokens(c, doc.anchors), |MapGet(after, c.pageUrl)|, c.pageUrl in after, depth)
  }

  /**
   * `rec` is what `_parse_html` returns for `doc`: only the order of
   * `internalLinks` is left open, since the source builds it from a set.
   */
  ghost predicate IsExtraction(c: PageCtx, digest: string -> string, status: int, depth: nat, doc: Doc,
                               after: map<string, seq<Backlink>>, rec: PageRecord) {
    && Enumerates(rec.internalLinks, Candidates(c, doc.anchors))
    && rec == Extracted(c, digest, status, depth, doc, after, rec.internalLinks)
  }

  // ---- Properties ---------------------------------------------------------------

  /** An empty href yields exactly the "Empty href" verdict. */
  lemma EmptyHrefIsBroken(c: PageCtx)
    ensures BrokenIssueOf(c, "") == Some(EmptyHref)
  {
  }

  /** "#x" is a broken anchor exactly when no element carries id or name x. */
  lemma FragmentHrefVerdict(c: PageCtx, x: string)
    ensures BrokenIssueOf(c, "#" + x) == (if x in c.ids || x in c.names then None else Some(BrokenAnchor(x)))
  {
    assert ("#" + x)[1..] == x;
    assert StartsWith("#" + x, "#");
  }

  /** javascript:, mailto: and tel: links are never flagged. */
  lemma ScriptSchemesNeverFlagged(c: PageCtx, href: string)
    requires StartsWith(href, "javascript:") || StartsWith(href, "mailto:") || StartsWith(href, "tel:")
    ensures BrokenIssueOf(c, href) == None
  {
    assert href != "" && !StartsWith(href, "#") by {
      assert href[0] != '#';
    }
  }

  /** Each flagged anchor contributes exactly one entry to the page's broken list, in order. */
  lemma {:induction false} BrokensCount(c: PageCtx, anchors: seq<Anchor>)
    ensures |Brokens(c, anchors)| == FlaggedCount(c, anchors)
    ensures forall i :: 0 <= i < |Brokens(c, anchors)| ==>
              Brokens(c, anchors)[i].link.sourcePage == c.pageUrl
              && Brokens(c, anchors)[i].link in Links(c, anchors)
  {
    if anchors != [] {
      BrokensCount(c, anchors[..|anchors| - 1]);
    }
  }

  /**
   * Recording a page's anchors appends, under every key k, exactly the entries
   * of the anchors whose backlink key is k, in document order, whether or not
   * k was visited; no other key changes and no list becomes empty.
   */
  lemma {:induction false} AddBacklinksSpec(m: map<string, seq<Backlink>>, c: PageCtx, anchors: seq<Anchor>)
    ensures forall k :: MapGet(AddBacklinks(m, c, anchors), k) == MapGet(m, k) + EntriesFor(c, anchors, k)
    ensures forall k :: k in AddBacklinks(m, c, anchors) <==> k in m || EntriesFor(c, anchors, k) != []
  {
    if anchors != [] {
      var init := anchors[..|anchors| - 1];
      AddBacklinksSpec(m, c, init);
    }
  }

  /** Every list in the backlink map stays non-empty. */
  lemma {:induction false} AddBacklinksNonEmpty(m: map<string, seq<Backlink>>, c: PageCtx, anchors: seq<Anchor>)
    requires forall k :: k in m ==> m[k] != []
    ensures forall k :: k in AddBacklinks(m, c, anchors) ==> AddBacklinks(m, c, anchors)[k] != []
  {
    if anchors != [] {
      AddBacklinksNonEmpty(m, c, anchors[..|anchors| - 1]);
    }
  }

  /** The backlink keys of the anchors, one per anchor. */
  function KeysOf(c: PageCtx, anchors: seq<Anchor>): (r: seq<Option<string>>)
    ensures |r| == |anchors| && forall i :: 0 <= i < |anchors| ==> r[i] == BacklinkKey(c, anchors[i])
  {
    seq(|anchors|, i requires 0 <= i < |anchors| => BacklinkKey(c, anchors[i]))
  }

  /** Each anchor whose backlink key is k contributes one entry: the count per key is exact. */
  lemma {:induction false} EntriesForCount(c: PageCtx, anchors: seq<Anchor>, k: string)
    ensures |EntriesFor(c, anchors, k)| == Count(KeysOf(c, anchors), Some(k))
    ensures forall e :: e in EntriesFor(c, anchors, k) ==> e.fromUrl == c.pageUrl
  {
    if anchors != [] {
      var n := |anchors| - 1;
      EntriesForCount(c, anchors[..n], k);
      assert KeysOf(c, anchors)[..n] == KeysOf(c, anchors[..n]);
    }
  }

  /**
   * An internal anchor whose resolved URL has the base netloc but a scheme
   * other than the base's (an `http` link on an `https` site, say) adds no
   * backlink: its normal form does not start with the base domain.
   */
  lemma OtherSchemeNoBacklink(c: PageCtx, a: Anchor, baseScheme: string)
    requires c.baseDomain == baseScheme + "://" + BaseNetloc(c)
    requires c.parse(AbsoluteUrl(c, a)).netloc == BaseNetloc(c)
    requires c.parse(AbsoluteUrl(c, a)).scheme != baseScheme
    requires ':' !in baseScheme && ':' !in c.parse(AbsoluteUrl(c, a)).scheme
    ensures IsInternal(c, a) && BacklinkKey(c, a) == None
  {
    var u := c.parse(AbsoluteUrl(c, a));
    var k := NormalizeUrl(c.parse, AbsoluteUrl(c, a));
    assert k == u.scheme + ":" + ("//" + u.netloc + RStripSlash(u.path) + QuerySuffix(u.query));
    assert c.baseDomain == baseScheme + ":" + ("//" + BaseNetloc(c));
    SchemesDiffer(u.scheme, baseScheme, "//" + u.netloc + RStripSlash(u.path) + QuerySuffix(u.query), "//" + BaseNetloc(c));
  }

  /** Two colon-free schemes that differ give URLs neither of which starts with the other's "scheme:". */
  lemma SchemesDiffer(s1: string, s2: string, r1: string, r2: string)
    requires s1 != s2 && ':' !in s1 && ':' !in s2
    ensures !StartsWith(s1 + ":" + r1, s2 + ":" + r2)
  {
    var x, y := s1 + ":" + r1, s2 + ":" + r2;
    var d: nat;
    if |s1| < |s2| {
      d := |s1|;
      assert x[d] == ':' && y[d] == s2[d];
    } else if |s1| > |s2| {
      d := |s2|;
      assert y[d] == ':' && x[d] == s1[d];
    } else {
      d :| d < |s1| && s1[d] != s2[d];
      assert x[d] == s1[d] && y[d] == s2[d];
    }
    assert d < |y| && x[d] != y[d];
    if |y| <= |x| {
      assert x[..|y|][d] != y[d];
    }
  }

  /** Two parses of the same markup in the same context agree on every field but the order of internal links. */
  lemma ExtractionDeterministic(c: PageCtx, digest: string -> string, status: int, depth: nat, doc: Doc,
                                after: map<string, seq<Backlink>>, r1: PageRecord, r2: PageRecord)
    requires IsExtraction(c, digest, status, depth, doc, after, r1)
    requires IsExtraction(c, digest, status, depth, doc, after, r2)
    ensures r1.(internalLinks := []) == r2.(internalLinks := [])
    ensures forall u :: u in r1.internalLinks <==> u in r2.internalLinks
    ensures |r1.internalLinks| == |r2.internalLinks|
  {
    NoDupSameElementsSameLength(r1.internalLinks, r2.internalLinks);
  }

  lemma {:induction false} NoDupSameElementsSameLength(xs: seq<string>, ys: seq<string>)
    requires NoDup(xs) && NoDup(ys)
    requires forall u :: u in xs <==> u in ys
    ensures |xs| == |ys|
  {
    NoDupCard(xs);
    NoDupCard(ys);
    assert (set u | u in xs) == (set u | u in ys);
  }

  lemma {:induction false} NoDupCard(xs: seq<string>)
    requires NoDup(xs)
    ensures |set u | u in xs| == |xs|
  {
    if xs != [] {
      var init := xs[..|xs| - 1];
      var x := xs[|xs| - 1];
      assert NoDup(init) by {
        assert forall i :: 0 <= i < |init| ==> init[i] == xs[i];
      }
      NoDupCard(init);
      assert x !in init;
      var si := set u | u in init;
      assert xs == init + [x];
      assert (set u | u in xs) == si + {x};
    } else {
      assert (set u | u in xs) == {};
    }
  }
}
