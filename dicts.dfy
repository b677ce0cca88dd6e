/**
 * Python dictionaries keep their keys in insertion order, and the crawler and
 * the analysers iterate over them (status-code histograms, Counter objects,
 * grouping by source page, the duplicate-merge table). A dictionary is
 * therefore modelled as an association list with distinct keys: assigning to
 * a present key replaces its value in place, a new key goes to the end.
 */
module Dicts {
  import opened Wrappers

  predicate DistinctKeys<K(==), V>(d: seq<(K, V)>) {
    forall i, j :: 0 <= i < j < |d| ==> d[i].0 != d[j].0
  }

  function KeySeq<K, V>(d: seq<(K, V)>): (r: seq<K>)
    ensures |r| == |d| && forall i :: 0 <= i < |d| ==> r[i] == d[i].0
  {
    seq(|d|, i requires 0 <= i < |d| => d[i].0)
  }

  predicate HasKey<K(==), V>(d: seq<(K, V)>, k: K) {
    exists i :: 0 <= i < |d| && d[i].0 == k
  }

  /** Position of key k, if present. */
  function Find<K(==), V>(d: seq<(K, V)>, k: K): (r: Option<nat>)
    ensures r.Some? ==> r.value < |d| && d[r.value].0 == k
    ensures r.None? <==> !HasKey(d, k)
  {
    if d == [] then None
    else if d[0].0 == k then Some(0)
    else match Find(d[1..], k)
      case Some(i) => Some(i + 1)
      case None => None
  }

  /** d.get(k, default). */
  function Get<K(==), V>(d: seq<(K, V)>, k: K, default: V): V {
    match Find(d, k)
    case Some(i) => d[i].1
    case None => default
  }

  /** d[k] = v. */
  function Put<K(==), V>(d: seq<(K, V)>, k: K, v: V): (r: seq<(K, V)>)
    ensures Find(d, k).Some? ==> r == d[Find(d, k).value := (k, v)]
    ensures Find(d, k).None? ==> r == d + [(k, v)]
  {
    match Find(d, k)
    case Some(i) => d[i := (k, v)]
    case None => d + [(k, v)]
  }

  lemma {:induction false} FindUnique<K, V>(d: seq<(K, V)>, k: K, i: nat)
    requires DistinctKeys(d) && i < |d| && d[i].0 == k
    ensures Find(d, k) == Some(i)
  {
    if i > 0 {
      FindUnique(d[1..], k, i - 1);
    }
  }

  /** Assignment keeps keys distinct, stores v under k and leaves every other key alone. */
  lemma PutProperties<K, V>(d: seq<(K, V)>, k: K, v: V)
    requires DistinctKeys(d)
    ensures DistinctKeys(Put(d, k, v))
    ensures Get(Put(d, k, v), k, v) == v && HasKey(Put(d, k, v), k)
    ensures forall dv :: Get(Put(d, k, v), k, dv) == v
    ensures forall k', dv :: k' != k ==> Get(Put(d, k, v), k', dv) == Get(d, k', dv)
    ensures forall k' :: HasKey(Put(d, k, v), k') <==> HasKey(d, k') || k' == k
    ensures KeySeq(Put(d, k, v)) == if HasKey(d, k) then KeySeq(d) else KeySeq(d) + [k]
  {
    var r := Put(d, k, v);
    match Find(d, k)
    case Some(i) =>
      FindUnique(r, k, i);
      assert forall j :: 0 <= j < |d| ==> r[j].0 == d[j].0;
      forall k' ensures HasKey(r, k') <==> HasKey(d, k') {
        if HasKey(d, k') {
          var j :| 0 <= j < |d| && d[j].0 == k';
          assert r[j].0 == k';
        }
        if HasKey(r, k') {
          var j :| 0 <= j < |r| && r[j].0 == k';
          assert d[j].0 == k';
        }
      }
      forall k', dv | k' != k ensures Get(r, k', dv) == Get(d, k', dv) {
        match Find(d, k')
        case Some(j) => FindUnique(r, k', j);
        case None => assert !HasKey(r, k');
      }
    case None =>
      FindUnique(r, k, |d|);
      forall k' ensures HasKey(r, k') <==> HasKey(d, k') || k' == k {
        if HasKey(d, k') {
          var j :| 0 <= j < |d| && d[j].0 == k';
          assert r[j].0 == k';
        }
        if HasKey(r, k') && k' != k {
          var j :| 0 <= j < |r| && r[j].0 == k';
          assert j < |d| && d[j].0 == k';
        }
      }
      forall k', dv | k' != k ensures Get(r, k', dv) == Get(d, k', dv) {
        match Find(d, k')
        case Some(j) => FindUnique(r, k', j);
        case None => assert !HasKey(r, k');
      }
  }

  /** `for x in xs: d[key(x)] = val(x)`, starting from an empty dictionary. */
  function PutEach<T, K(==), V>(xs: seq<T>, key: T -> K, val: T -> V): seq<(K, V)> {
    if xs == [] then []
    else
      var x := xs[|xs| - 1];
      Put(PutEach(xs[..|xs| - 1], key, val), key(x), val(x))
  }

  lemma PutEachSnoc<T, K, V>(xs: seq<T>, key: T -> K, val: T -> V, i: nat)
    requires i < |xs|
    ensures PutEach(xs[..i + 1], key, val) == Put(PutEach(xs[..i], key, val), key(xs[i]), val(xs[i]))
  {
    assert xs[..i + 1][..i] == xs[..i];
  }

  lemma PutGet<K, V>(d: seq<(K, V)>, k: K, v: V, k': K, dv: V)
    requires DistinctKeys(d)
    ensures Get(Put(d, k, v), k', dv) == if k' == k then v else Get(d, k', dv)
  {
    PutProperties(d, k, v);
  }

  lemma PutKeys<K, V>(d: seq<(K, V)>, k: K, v: V)
    requires DistinctKeys(d)
    ensures DistinctKeys(Put(d, k, v))
    ensures forall k' :: HasKey(Put(d, k, v), k') <==> HasKey(d, k') || k' == k
  {
    PutProperties(d, k, v);
  }

  /** The keys are the keys of the elements, each once. */
  lemma {:induction false} PutEachKeys<T, K, V>(xs: seq<T>, key: T -> K, val: T -> V)
    ensures DistinctKeys(PutEach(xs, key, val))
    ensures forall k :: HasKey(PutEach(xs, key, val), k) <==> exists i :: 0 <= i < |xs| && key(xs[i]) == k
  {
    if xs != [] {
      var n := |xs| - 1;
      var init := xs[..n];
      var d := PutEach(init, key, val);
      assert PutEach(xs, key, val) == Put(d, key(xs[n]), val(xs[n]));
      PutEachKeys(init, key, val);
      PutKeys(d, key(xs[n]), val(xs[n]));
      forall k ensures HasKey(PutEach(xs, key, val), k) <==> exists i :: 0 <= i < |xs| && key(xs[i]) == k {
        if exists i :: 0 <= i < |xs| && key(xs[i]) == k {
          var i :| 0 <= i < |xs| && key(xs[i]) == k;
          if i < n {
            assert key(init[i]) == k;
          }
        }
        if HasKey(d, k) {
          var i :| 0 <= i < |init| && key(init[i]) == k;
          assert key(xs[i]) == k;
        }
      }
    }
  }

  /** A key holds the value of the last element with that key. */
  lemma {:induction false} PutEachLast<T, K, V>(xs: seq<T>, key: T -> K, val: T -> V, i: nat, dv: V)
    requires i < |xs| && forall j :: i < j < |xs| ==> key(xs[j]) != key(xs[i])
    ensures Get(PutEach(xs, key, val), key(xs[i]), dv) == val(xs[i])
  {
    var n := |xs| - 1;
    var init := xs[..n];
    var d := PutEach(init, key, val);
    assert PutEach(xs, key, val) == Put(d, key(xs[n]), val(xs[n]));
    PutEachKeys(init, key, val);
    PutGet(d, key(xs[n]), val(xs[n]), key(xs[i]), dv);
    if i < n {
      assert init[i] == xs[i];
      PutEachLast(init, key, val, i, dv);
    }
  }

  /** Every entry is the key and value of some element. */
  lemma {:induction false} PutEachEntries<T, K, V>(xs: seq<T>, key: T -> K, val: T -> V)
    ensures forall e :: e in PutEach(xs, key, val) ==> exists i :: 0 <= i < |xs| && e == (key(xs[i]), val(xs[i]))
  {
    if xs != [] {
      var n := |xs| - 1;
      var init := xs[..n];
      var d := PutEach(init, key, val);
      PutEachEntries(init, key, val);
      forall e | e in PutEach(xs, key, val) ensures exists i :: 0 <= i < |xs| && e == (key(xs[i]), val(xs[i])) {
        var k :| 0 <= k < |PutEach(xs, key, val)| && PutEach(xs, key, val)[k] == e;
        if e != (key(xs[n]), val(xs[n])) {
          assert k < |d| && d[k] == e;
          assert e in d;
          var i :| 0 <= i < |init| && e == (key(init[i]), val(init[i]));
          assert xs[i] == init[i];
        }
      }
    }
  }

  /** An entry of a list with distinct keys occurs in it once. */
  lemma OccursOnce<K, V>(d: seq<(K, V)>, k: nat)
    requires DistinctKeys(d) && k < |d|
    ensures multiset(d)[d[k]] == 1
  {
    assert d == d[..k] + [d[k]] + d[k + 1..];
    forall m | 0 <= m < |d| && m != k ensures d[m] != d[k] {
      assert d[m].0 != d[k].0;
    }
    assert d[k] !in d[..k];
    assert d[k] !in d[k + 1..];
  }

  /** An element at two positions occurs at least twice. */
  lemma OccursTwice<T>(s: seq<T>, i: nat, j: nat)
    requires i < j < |s|
    ensures s[i] == s[j] ==> multiset(s)[s[j]] >= 2
  {
    assert s == s[..j] + [s[j]] + s[j + 1..];
    assert s[i] in s[..j];
  }

  /** A permutation of a list with distinct keys has distinct keys. */
  lemma PermutationDistinctKeys<K, V>(a: seq<(K, V)>, b: seq<(K, V)>)
    requires DistinctKeys(a) && multiset(a) == multiset(b)
    ensures DistinctKeys(b)
  {
    forall i, j | 0 <= i < j < |b| ensures b[i].0 != b[j].0 {
      assert b[i] in multiset(a) && b[j] in multiset(a);
      var k :| 0 <= k < |a| && a[k] == b[i];
      var l :| 0 <= l < |a| && a[l] == b[j];
      OccursOnce(a, l);
      OccursTwice(b, i, j);
      assert k != l;
    }
  }

  /** Number of occurrences of x in xs. */
  function Count<T(==)>(xs: seq<T>, x: T): nat {
    if xs == [] then 0 else Count(xs[..|xs| - 1], x) + (if xs[|xs| - 1] == x then 1 else 0)
  }

  /** collections.Counter(xs), keys in order of first occurrence. */
  function Tally<K(==)>(xs: seq<K>): seq<(K, nat)> {
    if xs == [] then []
    else
      var c := Tally(xs[..|xs| - 1]);
      var x := xs[|xs| - 1];
      Put(c, x, Get(c, x, 0) + 1)
  }

  /** Counting one more element is one more Counter update. */
  lemma TallySnoc<K>(xs: seq<K>, i: nat)
    requires i < |xs|
    ensures Tally(xs[..i + 1]) == Put(Tally(xs[..i]), xs[i], Get(Tally(xs[..i]), xs[i], 0) + 1)
  {
    assert xs[..i + 1][..i] == xs[..i];
  }

  function SumValues<K>(d: seq<(K, nat)>): nat {
    if d == [] then 0 else SumValues(d[..|d| - 1]) + d[|d| - 1].1
  }

  lemma {:induction false} SumValuesUpdate<K>(d: seq<(K, nat)>, i: nat, k: K, v: nat)
    requires i < |d|
    ensures SumValues(d[i := (k, v)]) + d[i].1 == SumValues(d) + v
  {
    var n := |d| - 1;
    if i < n {
      SumValuesUpdate(d[..n], i, k, v);
      assert d[i := (k, v)][..n] == d[..n][i := (k, v)];
    } else {
      assert d[i := (k, v)][..n] == d[..n];
    }
  }

  /**
   * A Counter holds exactly the elements of xs as keys, each once, and its
   * value for x is the number of occurrences of x.
   */
  lemma {:induction false} TallyCounts<K>(xs: seq<K>)
    ensures DistinctKeys(Tally(xs))
    ensures forall x :: Get(Tally(xs), x, 0) == Count(xs, x)
    ensures forall x :: HasKey(Tally(xs), x) <==> x in xs
  {
    if xs != [] {
      var init := xs[..|xs| - 1];
      var x := xs[|xs| - 1];
      var c := Tally(init);
      TallyCounts(init);
      PutProperties(c, x, Get(c, x, 0) + 1);
      assert xs == init + [x];
      forall y ensures Get(Tally(xs), y, 0) == Count(xs, y) {
        assert Count(xs, y) == Count(init, y) + (if x == y then 1 else 0);
      }
      forall y ensures HasKey(Tally(xs), y) <==> y in xs {
        assert y in xs <==> y in init || y == x;
      }
    }
  }

  /** Every Counter value is positive. */
  lemma {:induction false} TallyPositive<K>(xs: seq<K>)
    ensures forall i :: 0 <= i < |Tally(xs)| ==> Tally(xs)[i].1 > 0
  {
    if xs != [] {
      TallyPositive(xs[..|xs| - 1]);
    }
  }

  /** The values of a Counter add up to the number of counted elements. */
  lemma {:induction false} TallySum<K>(xs: seq<K>)
    ensures SumValues(Tally(xs)) == |xs|
  {
    if xs != [] {
      var init := xs[..|xs| - 1];
      var x := xs[|xs| - 1];
      var c := Tally(init);
      TallySum(init);
      match Find(c, x)
      case Some(i) =>
        SumValuesUpdate(c, i, x, Get(c, x, 0) + 1);
      case None =>
        assert (c + [(x, 1)])[..|c|] == c;
    }
  }

  /** Number of elements of xs that satisfy keep. */
  function CountIf<T>(xs: seq<T>, keep: T -> bool): (r: nat)
    ensures r <= |xs|
  {
    if xs == [] then 0 else CountIf(xs[..|xs| - 1], keep) + (if keep(xs[|xs| - 1]) then 1 else 0)
  }

  /** `sum(v for k, v in d.items() if keep(k))`. */
  function SumValuesIf<K>(d: seq<(K, nat)>, keep: K -> bool): nat {
    if d == [] then 0 else SumValuesIf(d[..|d| - 1], keep) + (if keep(d[|d| - 1].0) then d[|d| - 1].1 else 0)
  }

  lemma {:induction false} SumValuesIfUpdate<K>(d: seq<(K, nat)>, i: nat, v: nat, keep: K -> bool)
    requires i < |d|
    ensures SumValuesIf(d[i := (d[i].0, v)], keep) + (if keep(d[i].0) then d[i].1 else 0)
         == SumValuesIf(d, keep) + (if keep(d[i].0) then v else 0)
  {
    var n := |d| - 1;
    if i < n {
      SumValuesIfUpdate(d[..n], i, v, keep);
      assert d[i := (d[i].0, v)][..n] == d[..n][i := (d[i].0, v)];
    } else {
      assert d[i := (d[i].0, v)][..n] == d[..n];
    }
  }

  /** Summing a Counter's values over the keys that satisfy keep counts the elements that satisfy it. */
  lemma {:induction false} TallySumIf<K>(xs: seq<K>, keep: K -> bool)
    ensures SumValuesIf(Tally(xs), keep) == CountIf(xs, keep)
  {
    if xs != [] {
      var init := xs[..|xs| - 1];
      var x := xs[|xs| - 1];
      var c := Tally(init);
      TallySumIf(init, keep);
      match Find(c, x)
      case Some(i) =>
        SumValuesIfUpdate(c, i, Get(c, x, 0) + 1, keep);
      case None =>
        assert (c + [(x, 1)])[..|c|] == c;
    }
  }
}
