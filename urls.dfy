/**
 * URLs as the crawler sees them. `urlparse` (which splits a URL into the
 * components of section 3 of RFC 3986) and `urljoin` (reference resolution,
 * section 5.2 of RFC 3986) are library calls; the crawler receives them as
 * function-valued parameters, and this module only fixes the component record
 * they produce and the crawler's own normalisation of it.
 */
module Urls {
  import opened Wrappers
  import opened Text

  /** The six-field result of urlparse. */
  datatype Url = Url(scheme: string, netloc: string, path: string, params: string,
                     query: string, fragment: string)

  /** path.rstrip('/'): removes every trailing slash, not just one. */
  function RStripSlash(p: string): (r: string)
    ensures r <= p
    ensures r == [] || r[|r| - 1] != '/'
    ensures forall i :: |r| <= i < |p| ==> p[i] == '/'
  {
    if p != [] && p[|p| - 1] == '/' then RStripSlash(p[..|p| - 1]) else p
  }

  function QuerySuffix(q: string): string {
    if q == "" then "" else "?" + q
  }

  /**
   * The crawler's dedup and backlink key: scheme "://" netloc, the path without
   * trailing slashes, then "?" query when the query is non-empty. The params
   * (";...") and the fragment are dropped; case is not folded.
   */
  function Normalize(u: Url): string {
    u.scheme + "://" + u.netloc + RStripSlash(u.path) + QuerySuffix(u.query)
  }

  /** The component record a normalised URL stands for. */
  function NormalizedParts(u: Url): Url {
    Url(u.scheme, u.netloc, RStripSlash(u.path), "", u.query, "")
  }

  /** `_normalize_url(s)`: parse, then normalise. */
  function NormalizeUrl(parse: string -> Url, s: string): string {
    Normalize(parse(s))
  }

  /** A run of k slashes. */
  function Slashes(k: nat): (r: string)
    ensures |r| == k && forall i :: 0 <= i < k ==> r[i] == '/'
  {
    seq(k, i => '/')
  }

  // ---- Seed handling -------------------------------------------------------

  /** A seed without a scheme or without a netloc is rejected; otherwise the base domain is scheme "://" netloc. */
  function BaseDomain(seed: Url): (r: Option<string>)
    ensures r.None? <==> seed.scheme == "" || seed.netloc == ""
    ensures r.Some? ==> StartsWith(Normalize(seed), r.value)
  {
    if seed.scheme == "" || seed.netloc == "" then None
    else
      var b := seed.scheme + "://" + seed.netloc;
      assert Normalize(seed) == b + (RStripSlash(seed.path) + QuerySuffix(seed.query));
      Some(b)
  }

  // ---- Properties of normalisation ------------------------------------------

  /** Stripping trailing slashes is idempotent and ignores any number of extra trailing slashes. */
  lemma {:induction false} RStripSlashAppend(p: string, k: nat)
    ensures RStripSlash(p + Slashes(k)) == RStripSlash(p)
  {
    if k > 0 {
      var q := p + Slashes(k);
      assert q[..|q| - 1] == p + Slashes(k - 1);
      RStripSlashAppend(p, k - 1);
    } else {
      assert p + Slashes(0) == p;
    }
  }

  lemma RStripSlashIdempotent(p: string)
    ensures RStripSlash(RStripSlash(p)) == RStripSlash(p)
  {
  }

  /** URLs that differ only in their fragment or their ";params" normalise equal. */
  lemma NormalizeIgnoresFragmentAndParams(u: Url, params: string, fragment: string)
    ensures Normalize(u.(params := params, fragment := fragment)) == Normalize(u)
  {
  }

  /** URLs that differ only in how many slashes end the path normalise equal. */
  lemma NormalizeIgnoresTrailingSlashes(u: Url, k: nat)
    ensures Normalize(u.(path := u.path + Slashes(k))) == Normalize(u)
  {
    RStripSlashAppend(u.path, k);
  }

  /** For URLs that agree up to the path, the keys are equal exactly when the queries are. */
  lemma NormalizeKeepsQuery(u: Url, v: Url)
    requires u.scheme == v.scheme && u.netloc == v.netloc && RStripSlash(u.path) == RStripSlash(v.path)
    ensures Normalize(u) == Normalize(v) <==> u.query == v.query
  {
    var pre := u.scheme + "://" + u.netloc + RStripSlash(u.path);
    assert Normalize(u) == pre + QuerySuffix(u.query);
    assert Normalize(v) == pre + QuerySuffix(v.query);
    if Normalize(u) == Normalize(v) {
      assert QuerySuffix(u.query) == Normalize(u)[|pre|..];
      assert QuerySuffix(v.query) == Normalize(v)[|pre|..];
      if u.query != "" {
        assert u.query == QuerySuffix(u.query)[1..];
        assert v.query == QuerySuffix(v.query)[1..];
      }
    }
  }

  /** Normalising a normalised component record changes nothing. */
  lemma NormalizedPartsIdempotent(u: Url)
    ensures NormalizedParts(NormalizedParts(u)) == NormalizedParts(u)
    ensures Normalize(NormalizedParts(u)) == Normalize(u)
  {
    RStripSlashIdempotent(u.path);
  }

  /**
   * `_normalize_url` is idempotent whenever urlparse reads the normalised
   * string back into the components it was built from (the round trip that
   * section 3 of RFC 3986 gives for well-formed components).
   */
  lemma NormalizeUrlIdempotent(parse: string -> Url, s: string)
    requires parse(NormalizeUrl(parse, s)) == NormalizedParts(parse(s))
    ensures NormalizeUrl(parse, NormalizeUrl(parse, s)) == NormalizeUrl(parse, s)
  {
    NormalizedPartsIdempotent(parse(s));
  }
}
