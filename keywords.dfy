/**
 * Keyword analysis of a crawl: the combined text of the pages, word n-gram
 * frequency lists, the capped RAKE and TF-IDF lists, and greedy clusters of
 * the top phrases that share a word. The RAKE phrase ranking and the TF-IDF
 * vectoriser are library code; the analyser receives them as functions.
 */
module Keywords {
  import opened Wrappers
  import opened Text
  import opened Dicts
  import opened Sorting
  import opened Pages

  datatype RakeKeyword = RakeKeyword(phrase: string, score: real, length: nat)
  datatype TfidfKeyword = TfidfKeyword(term: string, tfidfScore: real)
  datatype TermCount = TermCount(term: string, frequency: nat)
  datatype NGrams = NGrams(unigrams: seq<TermCount>, bigrams: seq<TermCount>, trigrams: seq<TermCount>)
  datatype Cluster = Cluster(theme: string, keywords: seq<string>, size: nat)
  datatype KeywordReport = KeywordReport(
    rake: seq<RakeKeyword>, ngrams: NGrams, tfidf: seq<TfidfKeyword>,
    keywordClusters: seq<Cluster>, totalKeywords: nat)

  /** The result for a crawl without pages or without enough text. */
  const EmptyReport := KeywordReport([], NGrams([], [], []), [], [], 0)

  // ---- The combined text ------------------------------------------------------------

  /** A one-element list holding s when s is truthy (non-empty). */
  function Present(s: string): seq<string> {
    if s != "" then [s] else []
  }

  /** A page's title, its h1 and h2 headings and the first 2000 characters of its content. */
  function PageParts(p: PageRecord): seq<string> {
    Present(p.title) + p.h1 + p.h2 + (if p.content != "" then [Take(p.content, 2000)] else [])
  }

  function PageText(p: PageRecord): string {
    Join(PageParts(p), " ")
  }

  function PageTexts(ps: seq<PageRecord>): (r: seq<string>)
    ensures |r| == |ps| && forall i :: 0 <= i < |ps| ==> r[i] == PageText(ps[i])
  {
    if ps == [] then [] else PageTexts(ps[..|ps| - 1]) + [PageText(ps[|ps| - 1])]
  }

  /** The text of all pages, page after page, separated by spaces. */
  function AllText(ps: seq<PageRecord>): string {
    Join(PageTexts(ps), " ")
  }

  /** Each page's title, headings and content prefix occur in the combined text. */
  lemma AllTextContains(ps: seq<PageRecord>, i: nat, k: nat)
    requires i < |ps| && k < |PageParts(ps[i])|
    ensures IsInfix(PageParts(ps[i])[k], AllText(ps))
  {
    JoinInfix(PageParts(ps[i]), " ", k);
    JoinInfix(PageTexts(ps), " ", i);
    InfixTransitive(PageParts(ps[i])[k], PageText(ps[i]), AllText(ps));
  }

  /** The content contributes at most its first 2000 characters. */
  lemma ContentPrefix(p: PageRecord)
    requires p.content != ""
    ensures var part := PageParts(p)[|PageParts(p)| - 1];
      part <= p.content && |part| == Min(|p.content|, 2000)
  {
  }

  // ---- N-grams ------------------------------------------------------------------

  /** `\w` of Python's `re`: ASCII letters, digits, underscore; other non-ASCII non-space characters count as word characters. */
  predicate IsWordChar(c: char) {
    ('a' <= c <= 'z') || ('A' <= c <= 'Z') || ('0' <= c <= '9') || c == '_'
    || (c as int >= 128 && !IsSpace(c))
  }

  /** `re.sub(r'[^\w\s]', ' ', s)`. */
  function Clean(s: string): string {
    seq(|s|, i requires 0 <= i < |s| => if IsWordChar(s[i]) || IsSpace(s[i]) then s[i] else ' ')
  }

  /** Cleaning keeps the length, keeps word characters and whitespace, and leaves nothing else. */
  lemma CleanSpec(s: string)
    ensures |Clean(s)| == |s|
    ensures forall i :: 0 <= i < |s| ==> IsWordChar(Clean(s)[i]) || IsSpace(Clean(s)[i])
    ensures forall i :: 0 <= i < |s| && (IsWordChar(s[i]) || IsSpace(s[i])) ==> Clean(s)[i] == s[i]
  {
  }

  /** The words the n-grams are built from. */
  function CleanWords(text: string): seq<string> {
    Words(Clean(Lower(text)))
  }

  /** Adjacent word pairs joined by a space. */
  function Bigrams(ws: seq<string>): (r: seq<string>)
    ensures |r| == if |ws| >= 1 then |ws| - 1 else 0
  {
    if |ws| < 2 then [] else seq(|ws| - 1, i requires 0 <= i < |ws| - 1 => ws[i] + " " + ws[i + 1])
  }

  /** Adjacent word triples joined by spaces. */
  function Trigrams(ws: seq<string>): (r: seq<string>)
    ensures |r| == if |ws| >= 2 then |ws| - 2 else 0
  {
    if |ws| < 3 then [] else seq(|ws| - 2, i requires 0 <= i < |ws| - 2 => ws[i] + " " + ws[i + 1] + " " + ws[i + 2])
  }

  function CountOf(e: (string, nat)): real {
    e.1 as real
  }

  /** `Counter(xs).most_common(n)`: the n largest counts, largest first; the order among equal counts is left open. */
  function MostCommon(xs: seq<string>, n: nat): seq<(string, nat)> {
    Take(SortDesc(Tally(xs), CountOf), n)
  }

  /** An entry of a Counter is an element with its number of occurrences. */
  lemma TallyEntry(xs: seq<string>, e: (string, nat))
    requires e in Tally(xs)
    ensures e.0 in xs && e.1 == Count(xs, e.0)
  {
    var t := Tally(xs);
    TallyCounts(xs);
    var j :| 0 <= j < |t| && t[j] == e;
    FindUnique(t, e.0, j);
  }

  /** Each listed entry is an element of xs with its number of occurrences. */
  lemma MostCommonEntries(xs: seq<string>, n: nat)
    ensures forall e :: e in MostCommon(xs, n) ==> e.0 in xs && e.1 == Count(xs, e.0)
  {
    var s := SortDesc(Tally(xs), CountOf);
    forall e | e in MostCommon(xs, n) ensures e.0 in xs && e.1 == Count(xs, e.0) {
      assert e in multiset(s);
      TallyEntry(xs, e);
    }
  }

  /** At most n entries, each element once, in non-increasing count order. */
  lemma MostCommonRanked(xs: seq<string>, n: nat)
    ensures |MostCommon(xs, n)| <= n
    ensures DistinctKeys(MostCommon(xs, n))
    ensures SortedDesc(MostCommon(xs, n), CountOf)
  {
    var s := SortDesc(Tally(xs), CountOf);
    TallyCounts(xs);
    PermutationDistinctKeys(Tally(xs), s);
  }

  /** An element left out is never more frequent than the n-th entry, and is left out only when n entries are listed. */
  lemma MostCommonCutoff(xs: seq<string>, n: nat, x: string)
    requires n > 0 && x in xs && !HasKey(MostCommon(xs, n), x)
    ensures |MostCommon(xs, n)| == n
    ensures Count(xs, x) <= MostCommon(xs, n)[n - 1].1
  {
    var t := Tally(xs);
    var s := SortDesc(t, CountOf);
    var r := MostCommon(xs, n);
    var k := SortedPosition(xs, x);
    assert forall i :: 0 <= i < |r| ==> s[i].0 != x;
    assert k >= |r|;
    assert CountOf(s[n - 1]) >= CountOf(s[k]);
  }

  /** Where an element of xs stands in the sorted counts. */
  lemma SortedPosition(xs: seq<string>, x: string) returns (k: nat)
    requires x in xs
    ensures var s := SortDesc(Tally(xs), CountOf);
      k < |s| && s[k].0 == x && s[k].1 == Count(xs, x)
  {
    var t := Tally(xs);
    var s := SortDesc(t, CountOf);
    TallyCounts(xs);
    var j :| 0 <= j < |t| && t[j].0 == x;
    assert t[j] in multiset(s);
    k :| 0 <= k < |s| && s[k] == t[j];
    TallyEntry(xs, t[j]);
  }

  /** The frequency entries of a most-common list, in its order. */
  function Frequencies(common: seq<(string, nat)>): (r: seq<TermCount>)
    ensures |r| == |common| && forall i :: 0 <= i < |r| ==> r[i] == TermCount(common[i].0, common[i].1)
  {
    if common == [] then []
    else
      var e := common[|common| - 1];
      Frequencies(common[..|common| - 1]) + [TermCount(e.0, e.1)]
  }

  /** The entries of a most-common list whose word is longer than three characters, in its order. */
  function Unigrams(common: seq<(string, nat)>): (r: seq<TermCount>)
    ensures |r| <= |common|
  {
    if common == [] then []
    else
      var e := common[|common| - 1];
      Unigrams(common[..|common| - 1]) + (if |e.0| > 3 then [TermCount(e.0, e.1)] else [])
  }

  /** Unigrams keeps exactly the entries with a word longer than three characters. */
  lemma {:induction false} UnigramsMembers(common: seq<(string, nat)>)
    ensures forall t :: t in Unigrams(common) <==> |t.term| > 3 && (t.term, t.frequency) in common
  {
    if common != [] {
      var init := common[..|common| - 1];
      UnigramsMembers(init);
      assert common == init + [common[|common| - 1]];
    }
  }

  /** Each term listed once with its count (taken from xs), most frequent first. */
  predicate Ranked(ts: seq<TermCount>) {
    forall i, j :: 0 <= i < j < |ts| ==> ts[i].term != ts[j].term && ts[i].frequency >= ts[j].frequency
  }

  predicate Counted(ts: seq<TermCount>, xs: seq<string>) {
    forall i :: 0 <= i < |ts| ==> ts[i].term in xs && ts[i].frequency == Count(xs, ts[i].term)
  }

  /** Filtering a ranked list keeps it ranked. */
  lemma {:induction false} UnigramsRanked(common: seq<(string, nat)>)
    requires DistinctKeys(common) && SortedDesc(common, CountOf)
    ensures Ranked(Unigrams(common))
  {
    if common != [] {
      var n := |common| - 1;
      var init := common[..n];
      var e := common[n];
      UnigramsRanked(init);
      UnigramsMembers(init);
      var u := Unigrams(init);
      forall i | 0 <= i < |u| ensures u[i].term != e.0 && u[i].frequency >= e.1 {
        assert u[i] in u;
        var k :| 0 <= k < n && init[k] == (u[i].term, u[i].frequency);
        assert CountOf(common[k]) >= CountOf(common[n]);
      }
    }
  }

  /** `_extract_ngrams` for a text. */
  function NGramsOf(text: string): NGrams {
    var words := CleanWords(text);
    NGrams(Unigrams(MostCommon(words, 50)), Frequencies(MostCommon(Bigrams(words), 30)),
           Frequencies(MostCommon(Trigrams(words), 20)))
  }

  /**
   * The frequency list of the n-grams xs capped at n entries: counted and
   * ranked, and an n-gram missing from it is no more frequent than the last
   * listed one.
   */
  lemma FrequenciesSpec(xs: seq<string>, n: nat)
    requires n > 0
    ensures var f := Frequencies(MostCommon(xs, n));
      && |f| <= n && Counted(f, xs) && Ranked(f)
      && forall b :: b in xs && (forall t :: t in f ==> t.term != b) ==> |f| == n && Count(xs, b) <= f[n - 1].frequency
  {
    var d := MostCommon(xs, n);
    MostCommonEntries(xs, n);
    MostCommonRanked(xs, n);
    var f := Frequencies(d);
    forall i | 0 <= i < |f| ensures f[i].term in xs && f[i].frequency == Count(xs, f[i].term) {
      assert d[i] in d;
    }
    forall i, j | 0 <= i < j < |f| ensures f[i].term != f[j].term && f[i].frequency >= f[j].frequency {
      assert CountOf(d[i]) >= CountOf(d[j]);
    }
    forall b | b in xs && (forall t :: t in f ==> t.term != b) ensures |f| == n && Count(xs, b) <= f[n - 1].frequency {
      forall k | 0 <= k < |d| ensures d[k].0 != b {
        assert f[k] in f;
      }
      MostCommonCutoff(xs, n, b);
    }
  }

  /**
   * Unigrams: at most 50, each longer than three characters, counted and
   * ranked; a long word missing from the list is no more frequent than the
   * 50th most common word.
   */
  lemma UnigramsSpec(text: string)
    ensures var words, u := CleanWords(text), NGramsOf(text).unigrams;
      && |u| <= 50
      && (forall t :: t in u ==> |t.term| > 3)
      && Counted(u, words) && Ranked(u)
      && (forall w :: w in words && |w| > 3 && (forall t :: t in u ==> t.term != w) ==>
            |MostCommon(words, 50)| == 50 && Count(words, w) <= MostCommon(words, 50)[49].1)
  {
    var words := CleanWords(text);
    var d := MostCommon(words, 50);
    var u := Unigrams(d);
    MostCommonEntries(words, 50);
    MostCommonRanked(words, 50);
    UnigramsMembers(d);
    UnigramsRanked(d);
    forall i | 0 <= i < |u| ensures u[i].term in words && u[i].frequency == Count(words, u[i].term) {
      assert u[i] in u;
    }
    forall w | w in words && |w| > 3 && (forall t :: t in u ==> t.term != w)
      ensures |d| == 50 && Count(words, w) <= d[49].1
    {
      forall k | 0 <= k < |d| ensures d[k].0 != w {
        var t := TermCount(d[k].0, d[k].1);
        assert d[k] in d;
        assert |t.term| > 3 ==> t in u;
      }
      MostCommonCutoff(words, 50, w);
    }
  }

  /**
   * Bigrams: at most 30, counted and ranked; a bigram missing from the list
   * is no more frequent than the last listed one.
   */
  lemma BigramsSpec(text: string)
    ensures var pairs, g := Bigrams(CleanWords(text)), NGramsOf(text).bigrams;
      && |g| <= 30 && Counted(g, pairs) && Ranked(g)
      && forall b :: b in pairs && (forall t :: t in g ==> t.term != b) ==> |g| == 30 && Count(pairs, b) <= g[29].frequency
  {
    var pairs := Bigrams(CleanWords(text));
    assert NGramsOf(text).bigrams == Frequencies(MostCommon(pairs, 30));
    FrequenciesSpec(pairs, 30);
  }

  /**
   * Trigrams: at most 20, counted and ranked; a trigram missing from the list
   * is no more frequent than the last listed one.
   */
  lemma TrigramsSpec(text: string)
    ensures var triples, g := Trigrams(CleanWords(text)), NGramsOf(text).trigrams;
      && |g| <= 20 && Counted(g, triples) && Ranked(g)
      && forall b :: b in triples && (forall t :: t in g ==> t.term != b) ==> |g| == 20 && Count(triples, b) <= g[19].frequency
  {
    var triples := Trigrams(CleanWords(text));
    assert NGramsOf(text).trigrams == Frequencies(MostCommon(triples, 20));
    FrequenciesSpec(triples, 20);
  }

  // ---- RAKE and TF-IDF wrappers -------------------------------------------------------

  /** The keyword records of RAKE's ranked (score, phrase) pairs, in rank order. */
  function RakeKeywords(phrases: seq<(real, string)>): (r: seq<RakeKeyword>)
    ensures |r| == |phrases|
    ensures forall i :: 0 <= i < |r| ==> r[i].phrase == phrases[i].1 && r[i].score == phrases[i].0
    ensures forall i :: 0 <= i < |r| ==> r[i].length == |Words(r[i].phrase)|
  {
    if phrases == [] then []
    else
      var p := phrases[|phrases| - 1];
      RakeKeywords(phrases[..|phrases| - 1]) + [RakeKeyword(p.1, p.0, |Words(p.1)|)]
  }

  /** `_extract_rake_keywords`: the records of the top 100 phrases. */
  function RakeKeywordsOf(phrases: seq<(real, string)>): (r: seq<RakeKeyword>)
    ensures |r| == Min(|phrases|, 100)
  {
    RakeKeywords(Take(phrases, 100))
  }

  /** The TF-IDF document of a page: title, h1 headings and the first 1000 characters of content. */
  function Document(p: PageRecord): string {
    Join(Present(p.title) + p.h1 + (if p.content != "" then [Take(p.content, 1000)] else []), " ")
  }

  function Documents(ps: seq<PageRecord>): (r: seq<string>)
    ensures |r| == |ps| && forall i :: 0 <= i < |ps| ==> r[i] == Document(ps[i])
  {
    if ps == [] then [] else Documents(ps[..|ps| - 1]) + [Document(ps[|ps| - 1])]
  }

  /** `_extract_tfidf_keywords`: nothing for fewer than two documents, else the top 50 ranked terms. */
  function TfidfKeywordsOf(ps: seq<PageRecord>, tfidf: seq<string> -> seq<TfidfKeyword>): (r: seq<TfidfKeyword>)
    ensures |ps| < 2 ==> r == []
    ensures |r| <= 50
  {
    var documents := Documents(ps);
    if |documents| < 2 then [] else Take(tfidf(documents), 50)
  }

  // ---- Clustering ----------------------------------------------------------------------

  /** The lower-cased phrases of records. */
  function LowerPhrases(ks: seq<RakeKeyword>): (r: seq<string>)
    ensures |r| == |ks| && forall i :: 0 <= i < |ks| ==> r[i] == Lower(ks[i].phrase)
  {
    if ks == [] then [] else LowerPhrases(ks[..|ks| - 1]) + [Lower(ks[|ks| - 1].phrase)]
  }

  /** The lower-cased terms of records. */
  function LowerTerms(ks: seq<TfidfKeyword>): (r: seq<string>)
    ensures |r| == |ks| && forall i :: 0 <= i < |ks| ==> r[i] == Lower(ks[i].term)
  {
    if ks == [] then [] else LowerTerms(ks[..|ks| - 1]) + [Lower(ks[|ks| - 1].term)]
  }

  /** The keywords considered for clustering: the first 30 RAKE phrases, then the first 30 TF-IDF terms, lower-cased. */
  function Candidates(rake: seq<RakeKeyword>, tfidf: seq<TfidfKeyword>): (r: seq<string>)
    ensures |r| == Min(|rake|, 30) + Min(|tfidf|, 30)
  {
    LowerPhrases(Take(rake, 30)) + LowerTerms(Take(tfidf, 30))
  }

  datatype Growth = Growth(members: seq<string>, processed: set<string>)

  /** The inner loop over `others`: a keyword not yet processed that shares a word with the theme joins and is processed. */
  function Grow(themeWords: set<string>, others: seq<string>, processed: set<string>): Growth {
    if others == [] then Growth([], processed)
    else
      var g := Grow(themeWords, others[..|others| - 1], processed);
      var other := others[|others| - 1];
      if other !in g.processed && |themeWords * WordSet(other)| > 0 then Growth(g.members + [other], g.processed + {other})
      else g
  }

  lemma GrowSnoc(themeWords: set<string>, others: seq<string>, processed: set<string>, j: nat)
    requires j < |others|
    ensures var g := Grow(themeWords, others[..j], processed);
      Grow(themeWords, others[..j + 1], processed) ==
        if others[j] !in g.processed && |themeWords * WordSet(others[j])| > 0
        then Growth(g.members + [others[j]], g.processed + {others[j]}) else g
  {
    assert others[..j + 1][..j] == others[..j];
  }

  /**
   * The members are keywords of `others` not processed before, each sharing a
   * word with the theme and each taken once; processing adds exactly them.
   */
  lemma {:induction false} GrowSpec(themeWords: set<string>, others: seq<string>, processed: set<string>)
    ensures var g := Grow(themeWords, others, processed);
      && (forall x :: x in g.processed <==> x in processed || x in g.members)
      && (forall m :: m in g.members ==> m !in processed && m in others && themeWords * WordSet(m) != {})
      && (forall i, j :: 0 <= i < j < |g.members| ==> g.members[i] != g.members[j])
  {
    if others != [] {
      var init := others[..|others| - 1];
      var other := others[|others| - 1];
      var g := Grow(themeWords, init, processed);
      GrowSpec(themeWords, init, processed);
      assert others == init + [other];
    }
  }

  /** Every keyword of `others` sharing a word with the theme ends up processed. */
  lemma {:induction false} GrowComplete(themeWords: set<string>, others: seq<string>, processed: set<string>)
    ensures forall o :: o in others && themeWords * WordSet(o) != {} ==> o in Grow(themeWords, others, processed).processed
  {
    if others != [] {
      var init := others[..|others| - 1];
      GrowComplete(themeWords, init, processed);
      assert others == init + [others[|others| - 1]];
    }
  }

  datatype Progress = Progress(clusters: seq<Cluster>, processed: set<string>)

  /** The outer loop after the first k keywords of `all`. */
  function ClusterState(all: seq<string>, k: nat): Progress
    requires k <= |all|
  {
    if k == 0 then Progress([], {})
    else
      var s := ClusterState(all, k - 1);
      var keyword := all[k - 1];
      if keyword in s.processed || |Words(keyword)| < 2 then s
      else
        var g := Grow(WordSet(keyword), all, s.processed + {keyword});
        var cluster := [keyword] + g.members;
        if |cluster| > 1 then Progress(s.clusters + [Cluster(keyword, Take(cluster, 10), |cluster|)], g.processed)
        else Progress(s.clusters, g.processed)
  }

  /** `_cluster_keywords`: at most ten clusters. */
  function ClustersOf(rake: seq<RakeKeyword>, tfidf: seq<TfidfKeyword>): seq<Cluster> {
    var all := Candidates(rake, tfidf);
    Take(ClusterState(all, |all|).clusters, 10)
  }

  /**
   * A cluster of candidates `all`: its theme has two words or more and is its
   * first keyword; its size counts every member and is at least 2 while at
   * most ten keywords are listed; every keyword is a candidate, listed once,
   * sharing a word with the theme.
   */
  predicate WellFormed(c: Cluster, all: seq<string>) {
    && |Words(c.theme)| >= 2
    && c.size >= 2 && |c.keywords| == Min(c.size, 10)
    && c.keywords[0] == c.theme
    && (forall m :: m in c.keywords ==> m in all && WordSet(c.theme) * WordSet(m) != {})
    && (forall i, j :: 0 <= i < j < |c.keywords| ==> c.keywords[i] != c.keywords[j])
  }

  /** No keyword belongs to two clusters. */
  predicate Disjoint(cs: seq<Cluster>) {
    forall i, j, m :: 0 <= i < j < |cs| && m in cs[i].keywords ==> m !in cs[j].keywords
  }

  /** The invariant of the outer loop. */
  predicate ClusterInvariant(s: Progress, all: seq<string>) {
    && (forall c :: c in s.clusters ==> WellFormed(c, all))
    && Disjoint(s.clusters)
    && (forall c, m :: c in s.clusters && m in c.keywords ==> m in s.processed)
  }

  /** The keywords of one outer step's cluster, before the cap of ten. */
  function ClusterOf(all: seq<string>, keyword: string, processed: set<string>): seq<string> {
    [keyword] + Grow(WordSet(keyword), all, processed + {keyword}).members
  }

  /** Every keyword of the cluster is a candidate sharing a word with the theme, new before the step and processed after it. */
  lemma ClusterMembers(all: seq<string>, keyword: string, processed: set<string>)
    requires keyword in all && keyword !in processed && |Words(keyword)| >= 2
    ensures var g := Grow(WordSet(keyword), all, processed + {keyword});
      forall m :: m in ClusterOf(all, keyword, processed) ==>
        m in all && WordSet(keyword) * WordSet(m) != {} && m !in processed && m in g.processed
  {
    var w := WordSet(keyword);
    var g := Grow(w, all, processed + {keyword});
    GrowSpec(w, all, processed + {keyword});
    assert Words(keyword)[0] in w;
    assert keyword in g.processed;
    forall m | m in ClusterOf(all, keyword, processed)
      ensures m in all && w * WordSet(m) != {} && m !in processed && m in g.processed
    {
      if m != keyword {
        assert m in g.members;
      } else {
        assert Words(keyword)[0] in w * WordSet(m);
      }
    }
  }

  /** No keyword is listed twice in a cluster. */
  lemma ClusterDistinct(all: seq<string>, keyword: string, processed: set<string>)
    ensures var cluster := ClusterOf(all, keyword, processed);
      forall i, j :: 0 <= i < j < |cluster| ==> cluster[i] != cluster[j]
  {
    var g := Grow(WordSet(keyword), all, processed + {keyword});
    GrowSpec(WordSet(keyword), all, processed + {keyword});
    var cluster := ClusterOf(all, keyword, processed);
    forall i, j | 0 <= i < j < |cluster| ensures cluster[i] != cluster[j] {
      assert cluster[j] == g.members[j - 1];
      if i > 0 {
        assert cluster[i] == g.members[i - 1];
      } else {
        assert g.members[j - 1] in g.members;
      }
    }
  }

  /** The new cluster of one outer step is well formed and uses only keywords not processed before. */
  lemma NewCluster(all: seq<string>, keyword: string, processed: set<string>)
    requires keyword in all && keyword !in processed && |Words(keyword)| >= 2
    requires |ClusterOf(all, keyword, processed)| > 1
    ensures var cluster := ClusterOf(all, keyword, processed);
      var c := Cluster(keyword, Take(cluster, 10), |cluster|);
      && WellFormed(c, all)
      && (forall m :: m in c.keywords ==> m !in processed && m in Grow(WordSet(keyword), all, processed + {keyword}).processed)
  {
    var cluster := ClusterOf(all, keyword, processed);
    var c := Cluster(keyword, Take(cluster, 10), |cluster|);
    ClusterMembers(all, keyword, processed);
    ClusterDistinct(all, keyword, processed);
    assert forall i :: 0 <= i < |c.keywords| ==> c.keywords[i] == cluster[i];
  }

  lemma {:induction false} ClusterStateSpec(all: seq<string>, k: nat)
    requires k <= |all|
    ensures ClusterInvariant(ClusterState(all, k), all)
  {
    if k > 0 {
      var s := ClusterState(all, k - 1);
      ClusterStateSpec(all, k - 1);
      var keyword := all[k - 1];
      if keyword !in s.processed && |Words(keyword)| >= 2 {
        var cluster := ClusterOf(all, keyword, s.processed);
        GrowSpec(WordSet(keyword), all, s.processed + {keyword});
        if |cluster| > 1 {
          NewCluster(all, keyword, s.processed);
          var c := Cluster(keyword, Take(cluster, 10), |cluster|);
          var cs := s.clusters + [c];
          forall i, j, m | 0 <= i < j < |cs| && m in cs[i].keywords ensures m !in cs[j].keywords {
            if j == |s.clusters| {
              assert cs[i] in s.clusters;
            }
          }
        }
      }
    }
  }

  /**
   * At most ten clusters, each well formed, and no keyword in two of them.
   */
  lemma ClustersSpec(rake: seq<RakeKeyword>, tfidf: seq<TfidfKeyword>)
    ensures var cs, all := ClustersOf(rake, tfidf), Candidates(rake, tfidf);
      && |cs| <= 10
      && (forall c :: c in cs ==> WellFormed(c, all))
      && Disjoint(cs)
  {
    var all := Candidates(rake, tfidf);
    var s := ClusterState(all, |all|);
    ClusterStateSpec(all, |all|);
    var cs := ClustersOf(rake, tfidf);
    assert forall i :: 0 <= i < |cs| ==> cs[i] == s.clusters[i];
  }

  // ---- The analysis ---------------------------------------------------------------------

  /** The result of `analyze` for pages `ps`, with RAKE's ranking and the TF-IDF ranking given. */
  function KeywordReportOf(ps: seq<PageRecord>, rake: string -> seq<(real, string)>,
                           tfidf: seq<string> -> seq<TfidfKeyword>): KeywordReport
  {
    if ps == [] then EmptyReport
    else
      var allText := AllText(ps);
      if allText == "" || |Strip(allText)| < 10 then EmptyReport
      else
        var rakeKeywords := RakeKeywordsOf(rake(allText));
        var tfidfKeywords := TfidfKeywordsOf(ps, tfidf);
        KeywordReport(Take(rakeKeywords, 50), NGramsOf(allText), Take(tfidfKeywords, 50),
                      ClustersOf(rakeKeywords, tfidfKeywords), |rakeKeywords|)
  }

  /**
   * Without pages, or when the combined text has fewer than ten characters
   * once stripped, the result is empty; otherwise at most 50 RAKE phrases
   * (the top of the full list) and 50 TF-IDF terms are listed, the total
   * counts every RAKE phrase (at most 100), and a single page gives no
   * TF-IDF terms.
   */
  lemma KeywordReportSpec(ps: seq<PageRecord>, rake: string -> seq<(real, string)>,
                          tfidf: seq<string> -> seq<TfidfKeyword>)
    ensures var r := KeywordReportOf(ps, rake, tfidf);
      && ((ps == [] || |Strip(AllText(ps))| < 10) ==> r == EmptyReport)
      && (ps != [] && |Strip(AllText(ps))| >= 10 ==>
            var rakeKeywords := RakeKeywordsOf(rake(AllText(ps)));
            && r.rake <= rakeKeywords && |r.rake| == Min(|rakeKeywords|, 50)
            && r.totalKeywords == |rakeKeywords| <= 100
            && |r.tfidf| <= 50 && (|ps| < 2 ==> r.tfidf == [])
            && r.ngrams == NGramsOf(AllText(ps)))
  {
    if ps != [] && AllText(ps) == "" {
      StripEmptyIffBlank(AllText(ps));
    }
  }

  class KeywordAnalyzer {
    const pages: seq<PageRecord>
    /** RAKE: the (score, phrase) pairs of a text, best first. */
    const rake: string -> seq<(real, string)>
    /** The TF-IDF vectoriser: the terms of the documents by mean score, best first. */
    const tfidf: seq<string> -> seq<TfidfKeyword>

    constructor(results: CrawlResult, rake: string -> seq<(real, string)>, tfidf: seq<string> -> seq<TfidfKeyword>)
      ensures pages == results.pages && this.rake == rake && this.tfidf == tfidf
    {
      pages := results.pages;
      this.rake := rake;
      this.tfidf := tfidf;
    }

    method Analyze() returns (r: KeywordReport)
      ensures r == KeywordReportOf(pages, rake, tfidf)
    {
      if pages == [] {
        return EmptyReport;
      }
      var allText := ExtractAllText();
      if allText == "" || |Strip(allText)| < 10 {
        return EmptyReport;
      }
      var rakeKeywords := ExtractRakeKeywords(allText);
      var ngrams := ExtractNgrams(allText);
      var tfidfKeywords := ExtractTfidfKeywords();
      var clusters := ClusterKeywords(rakeKeywords, tfidfKeywords);
      r := KeywordReport(Take(rakeKeywords, 50), ngrams, Take(tfidfKeywords, 50), clusters, |rakeKeywords|);
    }

    method ExtractAllText() returns (allText: string)
      ensures allText == AllText(pages)
    {
      var texts: seq<string> := [];
      for i := 0 to |pages|
        invariant texts == PageTexts(pages[..i])
      {
        var textParts := TextParts(pages[i]);
        assert pages[..i + 1][..i] == pages[..i];
        texts := texts + [Join(textParts, " ")];
      }
      assert pages[..|pages|] == pages;
      allText := Join(texts, " ");
    }

    /** The parts one page contributes, appended in order. */
    static method TextParts(page: PageRecord) returns (textParts: seq<string>)
      ensures textParts == PageParts(page)
    {
      textParts := [];
      if page.title != "" {
        textParts := textParts + [page.title];
      }
      textParts := textParts + page.h1;
      textParts := textParts + page.h2;
      if page.content != "" {
        textParts := textParts + [Take(page.content, 2000)];
      }
    }

    method ExtractRakeKeywords(text: string) returns (keywords: seq<RakeKeyword>)
      ensures keywords == RakeKeywordsOf(rake(text))
    {
      var phrases := Take(rake(text), 100);
      keywords := [];
      for i := 0 to |phrases|
        invariant keywords == RakeKeywords(phrases[..i])
      {
        assert phrases[..i + 1][..i] == phrases[..i];
        keywords := keywords + [RakeKeyword(phrases[i].1, phrases[i].0, |Words(phrases[i].1)|)];
      }
      assert phrases[..|phrases|] == phrases;
    }

    method ExtractTfidfKeywords() returns (keywords: seq<TfidfKeyword>)
      ensures keywords == TfidfKeywordsOf(pages, tfidf)
    {
      var documents: seq<string> := [];
      for i := 0 to |pages|
        invariant documents == Documents(pages[..i])
      {
        assert pages[..i + 1][..i] == pages[..i];
        documents := documents + [Document(pages[i])];
      }
      assert pages[..|pages|] == pages;
      if |documents| < 2 {
        return [];
      }
      keywords := Take(tfidf(documents), 50);
    }

    static method ExtractNgrams(text: string) returns (ngrams: NGrams)
      ensures ngrams == NGramsOf(text)
    {
      var words := CleanWords(text);
      var unigrams := LongUnigrams(MostCommon(words, 50));
      var bigrams := TermFrequencies(MostCommon(Bigrams(words), 30));
      var trigrams := TermFrequencies(MostCommon(Trigrams(words), 20));
      ngrams := NGrams(unigrams, bigrams, trigrams);
    }

    /** Appends the entries whose word is longer than three characters. */
    static method LongUnigrams(common: seq<(string, nat)>) returns (unigrams: seq<TermCount>)
      ensures unigrams == Unigrams(common)
    {
      unigrams := [];
      for i := 0 to |common|
        invariant unigrams == Unigrams(common[..i])
      {
        assert common[..i + 1][..i] == common[..i];
        var (word, count) := common[i];
        if |word| > 3 {
          unigrams := unigrams + [TermCount(word, count)];
        }
      }
      assert common[..|common|] == common;
    }

    static method TermFrequencies(common: seq<(string, nat)>) returns (terms: seq<TermCount>)
      ensures terms == Frequencies(common)
    {
      terms := [];
      for i := 0 to |common|
        invariant terms == Frequencies(common[..i])
      {
        assert common[..i + 1][..i] == common[..i];
        terms := terms + [TermCount(common[i].0, common[i].1)];
      }
      assert common[..|common|] == common;
    }

    /** The greedy clustering, with the `processed` set and each cluster's list built in place. */
    static method ClusterKeywords(rakeKeywords: seq<RakeKeyword>, tfidfKeywords: seq<TfidfKeyword>) returns (clusters: seq<Cluster>)
      ensures clusters == ClustersOf(rakeKeywords, tfidfKeywords)
    {
      var allKeywords := CandidateKeywords(rakeKeywords, tfidfKeywords);
      var found: seq<Cluster> := [];
      var processed: set<string> := {};
      for k := 0 to |allKeywords|
        invariant Progress(found, processed) == ClusterState(allKeywords, k)
      {
        var keyword := allKeywords[k];
        if keyword !in processed && |Words(keyword)| >= 2 {
          var cluster := [keyword];
          processed := processed + {keyword};
          var wordsInKeyword := WordSet(keyword);
          cluster, processed := GatherRelated(wordsInKeyword, allKeywords, cluster, processed);
          if |cluster| > 1 {
            found := found + [Cluster(keyword, Take(cluster, 10), |cluster|)];
          }
        }
      }
      clusters := Take(found, 10);
    }

    /** The candidates, RAKE phrases first. */
    static method CandidateKeywords(rakeKeywords: seq<RakeKeyword>, tfidfKeywords: seq<TfidfKeyword>) returns (allKeywords: seq<string>)
      ensures allKeywords == Candidates(rakeKeywords, tfidfKeywords)
    {
      var phrases := LowerPhrasesOf(Take(rakeKeywords, 30));
      var terms := LowerTermsOf(Take(tfidfKeywords, 30));
      allKeywords := phrases + terms;
    }

    static method LowerPhrasesOf(ks: seq<RakeKeyword>) returns (r: seq<string>)
      ensures r == LowerPhrases(ks)
    {
      r := [];
      for i := 0 to |ks|
        invariant r == LowerPhrases(ks[..i])
      {
        assert ks[..i + 1][..i] == ks[..i];
        r := r + [Lower(ks[i].phrase)];
      }
      assert ks[..|ks|] == ks;
    }

    static method LowerTermsOf(ks: seq<TfidfKeyword>) returns (r: seq<string>)
      ensures r == LowerTerms(ks)
    {
      r := [];
      for i := 0 to |ks|
        invariant r == LowerTerms(ks[..i])
      {
        assert ks[..i + 1][..i] == ks[..i];
        r := r + [Lower(ks[i].term)];
      }
      assert ks[..|ks|] == ks;
    }

    /** The inner loop: appends every unprocessed keyword sharing a word with the theme and marks it processed. */
    static method GatherRelated(themeWords: set<string>, allKeywords: seq<string>, cluster: seq<string>, processed: set<string>)
      returns (cluster': seq<string>, processed': set<string>)
      ensures cluster' == cluster + Grow(themeWords, allKeywords, processed).members
      ensures processed' == Grow(themeWords, allKeywords, processed).processed
    {
      cluster', processed' := cluster, processed;
      for j := 0 to |allKeywords|
        invariant cluster' == cluster + Grow(themeWords, allKeywords[..j], processed).members
        invariant processed' == Grow(themeWords, allKeywords[..j], processed).processed
      {
        GrowSnoc(themeWords, allKeywords, processed, j);
        var other := allKeywords[j];
        if other !in processed' {
          var wordsInOther := WordSet(other);
          var overlap := |themeWords * wordsInOther|;
          if overlap > 0 {
            cluster' := cluster' + [other];
            processed' := processed' + {other};
          }
        }
      }
      assert allKeywords[..|allKeywords|] == allKeywords;
    }
  }
}
