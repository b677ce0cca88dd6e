/**
 * Duplicate-content detection over a crawl: three detectors report pairs of
 * similar pages, the reports are merged so that each unordered pair of URLs
 * appears once with its highest similarity, and the merged list is ranked.
 * The MinHash and cosine-similarity detectors are library code and are given
 * to the detector as functions; the word-set Jaccard detector is modelled.
 */
module Duplicates {
  import opened Wrappers
  import opened Text
  import opened Dicts
  import opened Sorting
  import opened Pages
  import Keywords

  datatype DetectionMethod = MinHash | Cosine | Jaccard

  datatype Duplicate = Duplicate(page1: string, page2: string, similarity: real, detectedBy: DetectionMethod)

  datatype DuplicateReport = DuplicateReport(duplicates: seq<Duplicate>, totalDuplicates: nat, methodsUsed: seq<DetectionMethod>)

  // ---- The merge key -------------------------------------------------------------

  /** Python's `<=` on strings: lexicographic by code point. */
  predicate StrLe(a: string, b: string)
    decreases |a|
  {
    a == [] || (b != [] && (a[0] < b[0] || (a[0] == b[0] && StrLe(a[1..], b[1..]))))
  }

  lemma {:induction false} StrLeTotal(a: string, b: string)
    ensures StrLe(a, b) || StrLe(b, a)
    decreases |a|
  {
    if a != [] && b != [] && a[0] == b[0] {
      StrLeTotal(a[1..], b[1..]);
    }
  }

  lemma {:induction false} StrLeAntisymmetric(a: string, b: string)
    requires StrLe(a, b) && StrLe(b, a)
    ensures a == b
    decreases |a|
  {
    if a != [] {
      StrLeAntisymmetric(a[1..], b[1..]);
      assert a == [a[0]] + a[1..] && b == [b[0]] + b[1..];
    }
  }

  /** `tuple(sorted([a, b]))`. */
  function PairKey(a: string, b: string): (string, string) {
    if StrLe(a, b) then (a, b) else (b, a)
  }

  /** The key holds the two URLs in order, and the order of the two URLs does not matter. */
  lemma PairKeySpec(a: string, b: string)
    ensures PairKey(a, b) == PairKey(b, a)
    ensures StrLe(PairKey(a, b).0, PairKey(a, b).1)
    ensures {PairKey(a, b).0, PairKey(a, b).1} == {a, b}
  {
    StrLeTotal(a, b);
    if StrLe(a, b) && StrLe(b, a) {
      StrLeAntisymmetric(a, b);
    }
  }

  function KeyOf(d: Duplicate): (string, string) {
    PairKey(d.page1, d.page2)
  }

  // ---- Merging ----------------------------------------------------------------------

  type Table = seq<((string, string), Duplicate)>

  /** One iteration of the merge loop: a new pair is stored, a stored pair is replaced only by a strictly more similar report. */
  function MergeStep(m: Table, dup: Duplicate): Table {
    var key := KeyOf(dup);
    if !HasKey(m, key) || dup.similarity > Get(m, key, dup).similarity then Put(m, key, dup) else m
  }

  /** The `all_duplicates` table after merging the reports `dups` in order. */
  function Merged(dups: seq<Duplicate>): Table {
    if dups == [] then [] else MergeStep(Merged(dups[..|dups| - 1]), dups[|dups| - 1])
  }

  lemma MergedSnoc(dups: seq<Duplicate>, i: nat)
    requires i < |dups|
    ensures Merged(dups[..i + 1]) == MergeStep(Merged(dups[..i]), dups[i])
  {
    assert dups[..i + 1][..i] == dups[..i];
  }

  /** Each unordered pair reported is stored once, and nothing else is stored. */
  lemma {:induction false} MergedKeys(dups: seq<Duplicate>)
    ensures DistinctKeys(Merged(dups))
    ensures forall k :: HasKey(Merged(dups), k) <==> exists i :: 0 <= i < |dups| && KeyOf(dups[i]) == k
  {
    if dups != [] {
      var n := |dups| - 1;
      var init := dups[..n];
      var m := Merged(init);
      assert Merged(dups) == MergeStep(m, dups[n]);
      MergedKeys(init);
      MergeStepKeys(m, dups[n]);
      forall k ensures HasKey(Merged(dups), k) <==> exists i :: 0 <= i < |dups| && KeyOf(dups[i]) == k {
        if exists i :: 0 <= i < |dups| && KeyOf(dups[i]) == k {
          var i :| 0 <= i < |dups| && KeyOf(dups[i]) == k;
          if i < n {
            assert KeyOf(init[i]) == k;
          }
        }
        if HasKey(m, k) {
          var i :| 0 <= i < |init| && KeyOf(init[i]) == k;
          assert KeyOf(dups[i]) == k;
        }
      }
    }
  }

  /** A merge step stores the report's pair and keeps every other pair. */
  lemma MergeStepKeys(m: Table, d: Duplicate)
    requires DistinctKeys(m)
    ensures DistinctKeys(MergeStep(m, d))
    ensures forall k :: HasKey(MergeStep(m, d), k) <==> HasKey(m, k) || k == KeyOf(d)
  {
    PutKeys(m, KeyOf(d), d);
  }

  /** Every stored report is one of the reports, stored under its own pair. */
  lemma {:induction false} MergedEntries(dups: seq<Duplicate>)
    ensures forall e :: e in Merged(dups) ==> e.0 == KeyOf(e.1) && e.1 in dups
  {
    if dups != [] {
      var n := |dups| - 1;
      var init := dups[..n];
      var m := Merged(init);
      MergedEntries(init);
      forall e | e in Merged(dups) ensures e.0 == KeyOf(e.1) && e.1 in dups {
        if e != (KeyOf(dups[n]), dups[n]) {
          var k :| 0 <= k < |Merged(dups)| && Merged(dups)[k] == e;
          assert k < |m| && m[k] == e;
          assert e in m;
          assert e.1 in init;
        }
      }
    }
  }

  /** Report i of the pair k is strictly more similar than every earlier report of k. */
  predicate BeatsEarlier(dups: seq<Duplicate>, k: (string, string), i: nat)
    requires i < |dups|
  {
    forall j :: 0 <= j < i && KeyOf(dups[j]) == k ==> dups[j].similarity < dups[i].similarity
  }

  /** Report i of the pair k is at least as similar as every later report of k. */
  predicate BeatsLater(dups: seq<Duplicate>, k: (string, string), i: nat)
    requires i < |dups|
  {
    forall j :: i < j < |dups| && KeyOf(dups[j]) == k ==> dups[j].similarity <= dups[i].similarity
  }

  /** The winner of a pair is at least as similar as every report of the pair. */
  lemma WinnerBound(dups: seq<Duplicate>, k: (string, string), w: nat)
    requires w < |dups| && KeyOf(dups[w]) == k && BeatsEarlier(dups, k, w) && BeatsLater(dups, k, w)
    ensures forall j :: 0 <= j < |dups| && KeyOf(dups[j]) == k ==> dups[j].similarity <= dups[w].similarity
  {
  }

  /** A winner stays the winner when the next report is no more similar or of another pair. */
  lemma {:induction false} WinnerKept(dups: seq<Duplicate>, k: (string, string), w: nat)
    requires w < |dups| - 1
    requires BeatsEarlier(dups[..|dups| - 1], k, w) && BeatsLater(dups[..|dups| - 1], k, w)
    requires KeyOf(dups[|dups| - 1]) == k ==> dups[|dups| - 1].similarity <= dups[w].similarity
    ensures BeatsEarlier(dups, k, w) && BeatsLater(dups, k, w)
  {
    var init := dups[..|dups| - 1];
    assert forall j :: 0 <= j < |init| ==> init[j] == dups[j];
  }

  /** The last report wins when it is more similar than every earlier report of its pair. */
  lemma {:induction false} WinnerNew(dups: seq<Duplicate>, k: (string, string))
    requires |dups| > 0
    requires forall j :: 0 <= j < |dups| - 1 && KeyOf(dups[j]) == k ==> dups[j].similarity < dups[|dups| - 1].similarity
    ensures BeatsEarlier(dups, k, |dups| - 1) && BeatsLater(dups, k, |dups| - 1)
  {
  }

  /**
   * The report stored for a pair is the first of the most similar reports of
   * that pair: every earlier report of the pair is strictly less similar and
   * every later one is at most as similar.
   */
  lemma {:induction false} MergedWinner(dups: seq<Duplicate>, k: (string, string), dv: Duplicate) returns (i: nat)
    requires HasKey(Merged(dups), k)
    ensures i < |dups| && KeyOf(dups[i]) == k && Get(Merged(dups), k, dv) == dups[i]
    ensures BeatsEarlier(dups, k, i) && BeatsLater(dups, k, i)
  {
    var n := |dups| - 1;
    var init := dups[..n];
    var m := Merged(init);
    var d := dups[n];
    MergedKeys(init);
    PutKeys(m, KeyOf(d), d);
    PutGet(m, KeyOf(d), d, k, dv);
    if k != KeyOf(d) {
      i := MergedWinner(init, k, dv);
      WinnerKept(dups, k, i);
    } else if !HasKey(m, k) {
      i := n;
      forall j | 0 <= j < n ensures KeyOf(dups[j]) != k {
        assert init[j] == dups[j];
      }
      WinnerNew(dups, k);
    } else {
      var w := MergedWinner(init, k, d);
      if d.similarity > init[w].similarity {
        i := n;
        WinnerBound(init, k, w);
        forall j | 0 <= j < n && KeyOf(dups[j]) == k ensures dups[j].similarity < d.similarity {
          assert init[j] == dups[j];
        }
        WinnerNew(dups, k);
      } else {
        i := w;
        WinnerKept(dups, k, w);
      }
    }
  }

  /** The reports in the table's insertion order (`list(all_duplicates.values())`). */
  function Values(m: Table): (r: seq<Duplicate>)
    ensures |r| == |m| && forall i :: 0 <= i < |m| ==> r[i] == m[i].1
  {
    seq(|m|, i requires 0 <= i < |m| => m[i].1)
  }

  function SimilarityOf(d: Duplicate): real {
    d.similarity
  }

  // ---- Jaccard ----------------------------------------------------------------------

  /** A page taking part in the Jaccard comparison: its distinct lower-cased words and its URL. */
  datatype PageWords = PageWords(words: set<string>, url: string)

  /** The word set of a page's text. */
  function WordsOf(p: PageRecord): set<string> {
    WordSet(Lower(Keywords.PageText(p)))
  }

  /** Whether a page takes part: its text is non-empty and has more than ten distinct words. */
  predicate Eligible(p: PageRecord) {
    Keywords.PageText(p) != "" && |WordsOf(p)| > 10
  }

  /** The word sets of the eligible pages, in page order. */
  function PageSets(ps: seq<PageRecord>): (r: seq<PageWords>)
    ensures |r| <= |ps|
  {
    if ps == [] then []
    else
      var p := ps[|ps| - 1];
      PageSets(ps[..|ps| - 1]) + (if Eligible(p) then [PageWords(WordsOf(p), p.url)] else [])
  }

  /** Exactly the eligible pages take part, each with its word set, and each has more than ten words. */
  lemma {:induction false} PageSetsSpec(ps: seq<PageRecord>)
    ensures forall e :: e in PageSets(ps) <==> exists p :: p in ps && Eligible(p) && e == PageWords(WordsOf(p), p.url)
    ensures forall e :: e in PageSets(ps) ==> |e.words| > 10
  {
    if ps != [] {
      var init := ps[..|ps| - 1];
      PageSetsSpec(init);
      assert ps == init + [ps[|ps| - 1]];
    }
  }

  /** The `> 0.7` test on |A∩B| / |A∪B|, stated exactly on the integer sizes. */
  predicate Similar(a: set<string>, b: set<string>) {
    |a + b| > 0 && 10 * |a * b| > 7 * |a + b|
  }

  function JaccardIndex(a: set<string>, b: set<string>): real
    requires |a + b| > 0
  {
    |a * b| as real / |a + b| as real
  }

  /** The report for pages i and j of the comparison. */
  function Detection(sets: seq<PageWords>, i: nat, j: nat): Duplicate
    requires i < |sets| && j < |sets| && |sets[i].words + sets[j].words| > 0
  {
    Duplicate(sets[i].url, sets[j].url, JaccardIndex(sets[i].words, sets[j].words), Jaccard)
  }

  function PairDetection(sets: seq<PageWords>, i: nat, j: nat): seq<Duplicate>
    requires i < |sets| && j < |sets|
  {
    if Similar(sets[i].words, sets[j].words) then [Detection(sets, i, j)] else []
  }

  /** The reports comparing page i with pages i+1 up to j-1. */
  function PairsFrom(sets: seq<PageWords>, i: nat, j: nat): seq<Duplicate>
    requires i < |sets| && j <= |sets|
  {
    if j <= i + 1 then [] else PairsFrom(sets, i, j - 1) + PairDetection(sets, i, j - 1)
  }

  /** The reports of all pairs whose first page comes before i. */
  function PairsBefore(sets: seq<PageWords>, i: nat): seq<Duplicate>
    requires i <= |sets|
  {
    if i == 0 then [] else PairsBefore(sets, i - 1) + PairsFrom(sets, i - 1, |sets|)
  }

  /** `_detect_with_jaccard` for the comparison's pages. */
  function JaccardOf(sets: seq<PageWords>): seq<Duplicate> {
    PairsBefore(sets, |sets|)
  }

  /** A report of a row comes from a similar pair (i, k) with k after i. */
  lemma {:induction false} PairsFromSound(sets: seq<PageWords>, i: nat, j: nat)
    requires i < |sets| && j <= |sets|
    ensures forall d :: d in PairsFrom(sets, i, j) ==>
      exists k :: i < k < j && Similar(sets[i].words, sets[k].words) && d == Detection(sets, i, k)
  {
    if j > i + 1 {
      PairsFromSound(sets, i, j - 1);
    }
  }

  /** Every reported pair is a pair i < j of the comparison whose Jaccard index exceeds 0.7. */
  lemma {:induction false} PairsBeforeSound(sets: seq<PageWords>, i: nat)
    requires i <= |sets|
    ensures forall d :: d in PairsBefore(sets, i) ==>
      exists a, b :: 0 <= a < b < |sets| && a < i && Similar(sets[a].words, sets[b].words) && d == Detection(sets, a, b)
  {
    if i > 0 {
      PairsBeforeSound(sets, i - 1);
      PairsFromSound(sets, i - 1, |sets|);
    }
  }

  lemma {:induction false} PairsFromComplete(sets: seq<PageWords>, i: nat, j: nat, k: nat)
    requires i < k < j <= |sets| && Similar(sets[i].words, sets[k].words)
    ensures Detection(sets, i, k) in PairsFrom(sets, i, j)
  {
    assert PairsFrom(sets, i, j) == PairsFrom(sets, i, j - 1) + PairDetection(sets, i, j - 1);
    if k < j - 1 {
      PairsFromComplete(sets, i, j - 1, k);
    }
  }

  /** Every pair i < j of the comparison whose Jaccard index exceeds 0.7 is reported. */
  lemma {:induction false} PairsBeforeComplete(sets: seq<PageWords>, i: nat, a: nat, b: nat)
    requires a < i <= |sets| && a < b < |sets| && Similar(sets[a].words, sets[b].words)
    ensures Detection(sets, a, b) in PairsBefore(sets, i)
  {
    var d := Detection(sets, a, b);
    var earlier, row := PairsBefore(sets, i - 1), PairsFrom(sets, i - 1, |sets|);
    assert PairsBefore(sets, i) == earlier + row;
    if a < i - 1 {
      PairsBeforeComplete(sets, i - 1, a, b);
      assert d in earlier;
    } else {
      PairsFromComplete(sets, a, |sets|, b);
      assert d in row;
    }
    InConcat(d, earlier, row);
  }

  lemma InConcat(x: Duplicate, s: seq<Duplicate>, t: seq<Duplicate>)
    requires x in s || x in t
    ensures x in s + t
  {
    if x in t {
      var k :| 0 <= k < |t| && t[k] == x;
      assert (s + t)[|s| + k] == x;
    }
  }

  /** Reported Jaccard similarities lie in (0.7, 1]. */
  lemma JaccardRange(a: set<string>, b: set<string>)
    requires Similar(a, b)
    ensures 0.7 < JaccardIndex(a, b) <= 1.0
  {
    assert a * b <= a + b;
    SubsetSize(a * b, a + b);
    RatioBounds(|a * b| as real, |a + b| as real);
  }

  lemma RatioBounds(i: real, u: real)
    requires u > 0.0 && 10.0 * i > 7.0 * u && i <= u
    ensures 0.7 < i / u <= 1.0
  {
    var q := i / u;
    assert q * u == i;
    assert (q - 0.7) * u > 0.0;
    assert (1.0 - q) * u >= 0.0;
  }

  lemma {:induction false} SubsetSize(x: set<string>, y: set<string>)
    requires x <= y
    ensures |x| <= |y|
  {
    if x != {} {
      var e :| e in x;
      SubsetSize(x - {e}, y - {e});
    }
  }

  /**
   * The Jaccard detector reports exactly the pairs i < j of eligible pages
   * whose word sets have Jaccard index above 0.7, each with that index.
   */
  lemma JaccardSpec(sets: seq<PageWords>)
    ensures forall d :: d in JaccardOf(sets) ==>
      exists a, b :: 0 <= a < b < |sets| && Similar(sets[a].words, sets[b].words) && d == Detection(sets, a, b)
    ensures forall a, b :: 0 <= a < b < |sets| && Similar(sets[a].words, sets[b].words) ==> Detection(sets, a, b) in JaccardOf(sets)
  {
    PairsBeforeSound(sets, |sets|);
    forall a, b | 0 <= a < b < |sets| && Similar(sets[a].words, sets[b].words) ensures Detection(sets, a, b) in JaccardOf(sets) {
      PairsBeforeComplete(sets, |sets|, a, b);
    }
  }

  /** Every Jaccard report has a similarity in (0.7, 1]. */
  lemma JaccardSimilarities(sets: seq<PageWords>)
    ensures forall d :: d in JaccardOf(sets) ==> 0.7 < d.similarity <= 1.0 && d.detectedBy == Jaccard
  {
    JaccardSpec(sets);
    forall d | d in JaccardOf(sets) ensures 0.7 < d.similarity <= 1.0 && d.detectedBy == Jaccard {
      var a, b :| 0 <= a < b < |sets| && Similar(sets[a].words, sets[b].words) && d == Detection(sets, a, b);
      JaccardRange(sets[a].words, sets[b].words);
    }
  }

  // ---- The result -------------------------------------------------------------------

  /** All reports in merge order: MinHash, then cosine, then Jaccard. */
  function AllReports(ps: seq<PageRecord>, minhash: seq<PageRecord> -> seq<Duplicate>,
                      cosine: seq<PageRecord> -> seq<Duplicate>): seq<Duplicate>
  {
    minhash(ps) + cosine(ps) + JaccardOf(PageSets(ps))
  }

  /**
   * The result of `detect`: nothing for fewer than two pages; otherwise the
   * merged reports ranked by non-increasing similarity, the first 50 listed
   * and all of them counted.
   */
  function DuplicateReportOf(ps: seq<PageRecord>, minhash: seq<PageRecord> -> seq<Duplicate>,
                             cosine: seq<PageRecord> -> seq<Duplicate>): (r: DuplicateReport)
    ensures |ps| < 2 ==> r == DuplicateReport([], 0, [])
    ensures |ps| >= 2 ==> r.methodsUsed == [MinHash, Cosine, Jaccard]
    ensures SortedDesc(r.duplicates, SimilarityOf)
    ensures |r.duplicates| == Min(r.totalDuplicates, 50)
  {
    if |ps| < 2 then DuplicateReport([], 0, [])
    else
      var ranked := SortDesc(Values(Merged(AllReports(ps, minhash, cosine))), SimilarityOf);
      DuplicateReport(Take(ranked, 50), |ranked|, [MinHash, Cosine, Jaccard])
  }

  /** Distinct pairs in a list of reports. */
  predicate DistinctPairs(ds: seq<Duplicate>) {
    forall i, j :: 0 <= i < j < |ds| ==> KeyOf(ds[i]) != KeyOf(ds[j])
  }

  lemma OccursOnceByPair(a: seq<Duplicate>, k: nat)
    requires DistinctPairs(a) && k < |a|
    ensures multiset(a)[a[k]] == 1
  {
    assert a == a[..k] + [a[k]] + a[k + 1..];
    forall m | 0 <= m < |a| && m != k ensures a[m] != a[k] {
      assert KeyOf(a[m]) != KeyOf(a[k]);
    }
    assert a[k] !in a[..k];
    assert a[k] !in a[k + 1..];
  }

  lemma PermutationDistinctPairs(a: seq<Duplicate>, b: seq<Duplicate>)
    requires DistinctPairs(a) && multiset(a) == multiset(b)
    ensures DistinctPairs(b)
  {
    forall i, j | 0 <= i < j < |b| ensures KeyOf(b[i]) != KeyOf(b[j]) {
      assert b[i] in multiset(a) && b[j] in multiset(a);
      var k :| 0 <= k < |a| && a[k] == b[i];
      var l :| 0 <= l < |a| && a[l] == b[j];
      OccursOnceByPair(a, l);
      OccursTwice(b, i, j);
      assert k != l;
    }
  }

  /** The merged reports list each unordered pair once. */
  lemma MergedDistinct(dups: seq<Duplicate>)
    ensures DistinctPairs(Values(Merged(dups)))
  {
    var m := Merged(dups);
    var v := Values(m);
    MergedKeys(dups);
    MergedEntries(dups);
    forall i, j | 0 <= i < j < |v| ensures KeyOf(v[i]) != KeyOf(v[j]) {
      assert m[i] in m && m[j] in m;
    }
  }

  /** The report stored at position k is a report of its pair at least as similar as every other. */
  lemma StoredIsBest(dups: seq<Duplicate>, k: nat)
    requires k < |Merged(dups)|
    ensures var d := Merged(dups)[k].1;
      d in dups && forall e :: e in dups && KeyOf(e) == KeyOf(d) ==> e.similarity <= d.similarity
  {
    var m := Merged(dups);
    var d := m[k].1;
    MergedKeys(dups);
    MergedEntries(dups);
    assert m[k] in m;
    var key := KeyOf(d);
    assert HasKey(m, key);
    var w := MergedWinner(dups, key, d);
    FindUnique(m, key, k);
    WinnerBound(dups, key, w);
    forall e | e in dups && KeyOf(e) == key ensures e.similarity <= d.similarity {
      var j :| 0 <= j < |dups| && dups[j] == e;
    }
  }

  /** The merged reports are each the best report of their pair. */
  lemma MergedBest(dups: seq<Duplicate>)
    ensures forall d :: d in Values(Merged(dups)) ==>
      d in dups && forall e :: e in dups && KeyOf(e) == KeyOf(d) ==> e.similarity <= d.similarity
  {
    var v := Values(Merged(dups));
    forall d | d in v ensures d in dups && forall e :: e in dups && KeyOf(e) == KeyOf(d) ==> e.similarity <= d.similarity {
      var k :| 0 <= k < |v| && v[k] == d;
      StoredIsBest(dups, k);
    }
  }

  /**
   * Ranking reports and keeping the first n keeps pairs distinct, keeps only
   * given reports, and leaves out nothing more similar than what is kept.
   */
  lemma RankedTop(v: seq<Duplicate>, n: nat)
    ensures var top := Take(SortDesc(v, SimilarityOf), n);
      && (DistinctPairs(v) ==> DistinctPairs(top))
      && (forall d :: d in top ==> d in v)
      && (forall e, d :: e in v && e !in top && d in top ==> e.similarity <= d.similarity)
  {
    var ranked := SortDesc(v, SimilarityOf);
    var top := Take(ranked, n);
    assert forall m :: 0 <= m < |top| ==> top[m] == ranked[m];
    if DistinctPairs(v) {
      PermutationDistinctPairs(v, ranked);
    }
    forall d | d in top ensures d in v {
      assert d in multiset(v);
    }
    forall e, d | e in v && e !in top && d in top ensures e.similarity <= d.similarity {
      assert e in multiset(ranked);
      var k :| 0 <= k < |ranked| && ranked[k] == e;
      var j :| 0 <= j < |top| && top[j] == d;
      assert k >= |top|;
      assert SimilarityOf(ranked[j]) >= SimilarityOf(ranked[k]);
    }
  }

  /**
   * Each listed report is the most similar report of its unordered pair, no
   * pair is listed twice, the total counts each reported pair once, and a
   * merged report left out of the top 50 is no more similar than any listed.
   */
  lemma DuplicateReportSpec(ps: seq<PageRecord>, minhash: seq<PageRecord> -> seq<Duplicate>,
                            cosine: seq<PageRecord> -> seq<Duplicate>)
    requires |ps| >= 2
    ensures var r, all := DuplicateReportOf(ps, minhash, cosine), AllReports(ps, minhash, cosine);
      && DistinctPairs(r.duplicates)
      && (forall d :: d in r.duplicates ==>
            d in all && forall e :: e in all && KeyOf(e) == KeyOf(d) ==> e.similarity <= d.similarity)
      && r.totalDuplicates == |Merged(all)|
      && (forall k :: HasKey(Merged(all), k) <==> exists e :: e in all && KeyOf(e) == k)
      && (forall e, d :: e in Values(Merged(all)) && e !in r.duplicates && d in r.duplicates ==>
            e.similarity <= d.similarity)
  {
    var all := AllReports(ps, minhash, cosine);
    var v := Values(Merged(all));
    var ranked := SortDesc(v, SimilarityOf);
    var r := DuplicateReportOf(ps, minhash, cosine);
    assert r == DuplicateReport(Take(ranked, 50), |ranked|, [MinHash, Cosine, Jaccard]);
    assert |ranked| == |v| by {
      assert |multiset(ranked)| == |multiset(v)|;
    }
    MergedDistinct(all);
    MergedBest(all);
    MergedKeys(all);
    RankedTop(v, 50);
  }

  class DuplicateDetector {
    const pages: seq<PageRecord>
    /** The MinHash detector's reports for the pages. */
    const minhash: seq<PageRecord> -> seq<Duplicate>
    /** The TF-IDF cosine detector's reports for the pages. */
    const cosine: seq<PageRecord> -> seq<Duplicate>

    constructor(results: CrawlResult, minhash: seq<PageRecord> -> seq<Duplicate>, cosine: seq<PageRecord> -> seq<Duplicate>)
      ensures pages == results.pages && this.minhash == minhash && this.cosine == cosine
    {
      pages := results.pages;
      this.minhash := minhash;
      this.cosine := cosine;
    }

    method Detect() returns (r: DuplicateReport)
      ensures r == DuplicateReportOf(pages, minhash, cosine)
    {
      if pages == [] || |pages| < 2 {
        return DuplicateReport([], 0, []);
      }
      var duplicatesMinhash := minhash(pages);
      var duplicatesCosine := cosine(pages);
      var duplicatesJaccard := DetectWithJaccard();
      var allDuplicates := MergeDuplicates(duplicatesMinhash + duplicatesCosine + duplicatesJaccard);
      var duplicatesList := Values(allDuplicates);
      duplicatesList := SortDesc(duplicatesList, SimilarityOf);
      r := DuplicateReport(Take(duplicatesList, 50), |duplicatesList|, [MinHash, Cosine, Jaccard]);
    }

    /** Fills the table, keeping the more similar report of each pair. */
    static method MergeDuplicates(dups: seq<Duplicate>) returns (allDuplicates: Table)
      ensures allDuplicates == Merged(dups)
    {
      allDuplicates := [];
      for i := 0 to |dups|
        invariant allDuplicates == Merged(dups[..i])
      {
        MergedSnoc(dups, i);
        var dup := dups[i];
        var key := PairKey(dup.page1, dup.page2);
        if !HasKey(allDuplicates, key) || dup.similarity > Get(allDuplicates, key, dup).similarity {
          allDuplicates := Put(allDuplicates, key, dup);
        }
      }
      assert dups[..|dups|] == dups;
    }

    method DetectWithJaccard() returns (duplicates: seq<Duplicate>)
      ensures duplicates == JaccardOf(PageSets(pages))
    {
      var pageSets := CollectPageSets(pages);
      duplicates := [];
      for i := 0 to |pageSets|
        invariant duplicates == PairsBefore(pageSets, i)
      {
        duplicates := CompareWith(pageSets, i, duplicates);
      }
    }

    /** The word sets of the pages with enough text. */
    static method CollectPageSets(ps: seq<PageRecord>) returns (pageSets: seq<PageWords>)
      ensures pageSets == PageSets(ps)
    {
      pageSets := [];
      for i := 0 to |ps|
        invariant pageSets == PageSets(ps[..i])
      {
        assert ps[..i + 1][..i] == ps[..i];
        var page := ps[i];
        var text := GetPageText(page);
        if text != "" {
          var words := WordSet(Lower(text));
          if |words| > 10 {
            pageSets := pageSets + [PageWords(words, page.url)];
          }
        }
      }
      assert ps[..|ps|] == ps;
    }

    /** The inner loop: compares page i with every later page and appends the similar pairs. */
    static method CompareWith(pageSets: seq<PageWords>, i: nat, duplicates: seq<Duplicate>) returns (duplicates': seq<Duplicate>)
      requires i < |pageSets|
      ensures duplicates' == duplicates + PairsFrom(pageSets, i, |pageSets|)
    {
      duplicates' := duplicates;
      for j := i + 1 to |pageSets|
        invariant duplicates' == duplicates + PairsFrom(pageSets, i, j)
      {
        assert PairsFrom(pageSets, i, j + 1) == PairsFrom(pageSets, i, j) + PairDetection(pageSets, i, j);
        var set1, set2 := pageSets[i].words, pageSets[j].words;
        var intersection := |set1 * set2|;
        var union := |set1 + set2|;
        var before := duplicates';
        if union > 0 && 10 * intersection > 7 * union {
          var jaccard := intersection as real / union as real;
          assert PairDetection(pageSets, i, j) == [Duplicate(pageSets[i].url, pageSets[j].url, jaccard, Jaccard)];
          duplicates' := duplicates' + [Duplicate(pageSets[i].url, pageSets[j].url, jaccard, Jaccard)];
        } else {
          assert PairDetection(pageSets, i, j) == [];
        }
        assert duplicates' == before + PairDetection(pageSets, i, j);
        assert duplicates + PairsFrom(pageSets, i, j + 1) == (duplicates + PairsFrom(pageSets, i, j)) + PairDetection(pageSets, i, j);
      }
    }

    /** `_get_page_text`: title, h1 and h2 headings and the first 2000 characters of content, space-joined. */
    static method GetPageText(page: PageRecord) returns (text: string)
      ensures text == Keywords.PageText(page)
    {
      var textParts: seq<string> := [];
      if page.title != "" {
        textParts := textParts + [page.title];
      }
      textParts := textParts + page.h1;
      textParts := textParts + page.h2;
      if page.content != "" {
        textParts := textParts + [Take(page.content, 2000)];
      }
      assert textParts == Keywords.PageParts(page);
      text := Join(textParts, " ");
    }
  }
}
