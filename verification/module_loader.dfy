/** `loadWithFallback` (assets/js/module-loader.js): a page-wide memo table
    from `specifier + "::" + (fallbackUrl || '')` to the outcome of loading
    that module. A fresh key imports the specifier; if that fails and there is
    a (non-empty) fallback URL, the fallback is imported instead, otherwise
    the error stands. Whatever comes out, success or failure, is stored and
    handed to every later call with the same key.

    `import()` is the parameter `imp`; the promise stored in the table is
    represented by the outcome it settles to. */
module ModuleLoader {
  import opened Wrappers

  datatype Outcome<M, E> = Loaded(namespace: M) | Failed(error: E)

  /** The text a fallback contributes to the key: `fallbackUrl || ''`. */
  function FallbackText(fallbackUrl: Option<string>): (t: string)
    ensures fallbackUrl.Some? ==> t == fallbackUrl.value
    ensures fallbackUrl.None? ==> t == ""
  {
    fallbackUrl.GetOr("")
  }

  /** `!fallbackUrl` is false: a fallback is present and not empty. */
  predicate HasFallback(fallbackUrl: Option<string>) {
    fallbackUrl.Some? && fallbackUrl.value != ""
  }

  /** The cache key: the specifier, "::", then the fallback text. */
  function CacheKey(specifier: string, fallbackUrl: Option<string>): (k: string)
    ensures |k| == |specifier| + 2 + |FallbackText(fallbackUrl)|
    ensures k[..|specifier|] == specifier
    ensures k[|specifier|..|specifier| + 2] == "::"
    ensures k[|specifier| + 2..] == FallbackText(fallbackUrl)
  {
    specifier + "::" + FallbackText(fallbackUrl)
  }

  /** No fallback and an empty fallback share one cache entry. */
  lemma EmptyFallbackSharesKey(specifier: string)
    ensures CacheKey(specifier, None) == CacheKey(specifier, Some(""))
  {
  }

  /** For specifiers without a colon the key tells the specifier and the
      fallback text apart. */
  lemma CacheKeyInjective(s1: string, f1: Option<string>, s2: string, f2: Option<string>)
    requires forall i :: 0 <= i < |s1| ==> s1[i] != ':'
    requires forall i :: 0 <= i < |s2| ==> s2[i] != ':'
    requires CacheKey(s1, f1) == CacheKey(s2, f2)
    ensures s1 == s2 && FallbackText(f1) == FallbackText(f2)
  {
    var k := CacheKey(s1, f1);
    assert forall i :: 0 <= i < |s1| ==> k[i] != ':';
    assert forall i :: 0 <= i < |s2| ==> k[i] != ':';
    assert k[|s1|] == ':' && k[|s2|] == ':';
    assert |s1| == |s2|;
    assert s1 == k[..|s1|] == s2;
  }

  /** With a colon in the specifier, two different calls can meet in one key:
      the second then receives the module of the first. */
  lemma CacheKeyCollision()
    ensures CacheKey("a::b", None) == CacheKey("a", Some("b::"))
  {
  }

  /** The loading of one key: the outcome and the URLs imported, in order. */
  datatype Resolution<M, E> = Resolution(outcome: Outcome<M, E>, imports: seq<string>)

  /** The async function stored for a fresh key (lines 18-28). */
  function Resolve<M, E>(specifier: string, fallbackUrl: Option<string>, imp: string -> Outcome<M, E>): (r: Resolution<M, E>)
    ensures 1 <= |r.imports| <= 2 && r.imports[0] == specifier
    ensures imp(specifier).Loaded? ==> r == Resolution(imp(specifier), [specifier])
    ensures imp(specifier).Failed? && !HasFallback(fallbackUrl) ==> r == Resolution(imp(specifier), [specifier])
    ensures imp(specifier).Failed? && HasFallback(fallbackUrl) ==>
      r == Resolution(imp(fallbackUrl.value), [specifier, fallbackUrl.value])
  {
    var primary := imp(specifier);
    if primary.Loaded? then Resolution(primary, [specifier])
    else if !HasFallback(fallbackUrl) then Resolution(primary, [specifier])
    else Resolution(imp(fallbackUrl.value), [specifier, fallbackUrl.value])
  }

  /** The outcome is that of the last import tried, and a failure means that
      every import tried failed. */
  lemma ResolutionIsLastImport<M, E>(specifier: string, fallbackUrl: Option<string>, imp: string -> Outcome<M, E>)
    ensures var r := Resolve(specifier, fallbackUrl, imp);
      r.outcome == imp(r.imports[|r.imports| - 1])
    ensures var r := Resolve(specifier, fallbackUrl, imp);
      r.outcome.Failed? ==> forall i :: 0 <= i < |r.imports| ==> imp(r.imports[i]).Failed?
  {
  }

  /** One call to `loadWithFallback`: what it returns, the table after it,
      and the URLs it imported. */
  datatype Call<M, E> = Call(outcome: Outcome<M, E>, cache: map<string, Outcome<M, E>>, imports: seq<string>)

  function LoadWithFallback<M, E>(cache: map<string, Outcome<M, E>>, specifier: string, fallbackUrl: Option<string>,
                                  imp: string -> Outcome<M, E>): (c: Call<M, E>)
    ensures var key := CacheKey(specifier, fallbackUrl);
      key in c.cache && c.outcome == c.cache[key]
    ensures var key := CacheKey(specifier, fallbackUrl);
      key in cache ==> c == Call(cache[key], cache, [])
    ensures var key := CacheKey(specifier, fallbackUrl);
      key !in cache ==> c.cache.Keys == cache.Keys + {key}
    ensures forall k :: k in cache ==> k in c.cache && c.cache[k] == cache[k]
    ensures var key := CacheKey(specifier, fallbackUrl);
      key !in cache ==> Resolution(c.outcome, c.imports) == Resolve(specifier, fallbackUrl, imp)
  {
    var key := CacheKey(specifier, fallbackUrl);
    if key in cache then Call(cache[key], cache, [])
    else
      var r := Resolve(specifier, fallbackUrl, imp);
      Call(r.outcome, cache[key := r.outcome], r.imports)
  }

  /** A second identical call returns the stored outcome, imports nothing and
      leaves the table as it is. */
  lemma LoadIdempotent<M, E>(cache: map<string, Outcome<M, E>>, specifier: string, fallbackUrl: Option<string>,
                             imp: string -> Outcome<M, E>)
    ensures var first := LoadWithFallback(cache, specifier, fallbackUrl, imp);
      LoadWithFallback(first.cache, specifier, fallbackUrl, imp) == Call(first.outcome, first.cache, [])
  {
  }

  /** The first outcome is final: a later call gets it whatever `import()`
      would do by then, so a failure is never retried. */
  lemma LoadNeverRetries<M, E>(cache: map<string, Outcome<M, E>>, specifier: string, fallbackUrl: Option<string>,
                               imp: string -> Outcome<M, E>, later: string -> Outcome<M, E>)
    ensures var first := LoadWithFallback(cache, specifier, fallbackUrl, imp);
      LoadWithFallback(first.cache, specifier, fallbackUrl, later).outcome == first.outcome
  {
  }

  /** Calling without a fallback and with an empty one is the same call. */
  lemma EmptyFallbackIsNoFallback<M, E>(cache: map<string, Outcome<M, E>>, specifier: string,
                                        imp: string -> Outcome<M, E>)
    ensures LoadWithFallback(cache, specifier, None, imp) == LoadWithFallback(cache, specifier, Some(""), imp)
  {
  }

  /** A request: a specifier and an optional fallback URL. */
  datatype Request = Request(specifier: string, fallbackUrl: Option<string>)

  /** A run of calls in order: the table at the end and how many times a
      module was actually resolved. */
  datatype Session<M, E> = Session(cache: map<string, Outcome<M, E>>, resolutions: nat)

  function LoadAll<M, E>(cache: map<string, Outcome<M, E>>, reqs: seq<Request>, imp: string -> Outcome<M, E>): Session<M, E>
    decreases |reqs|
  {
    if reqs == [] then Session(cache, 0)
    else
      var key := CacheKey(reqs[0].specifier, reqs[0].fallbackUrl);
      var c := LoadWithFallback(cache, reqs[0].specifier, reqs[0].fallbackUrl, imp);
      var rest := LoadAll(c.cache, reqs[1..], imp);
      Session(rest.cache, rest.resolutions + (if key in cache then 0 else 1))
  }

  /** Resolution happens once per key: over any run of calls the number of
      resolutions equals the number of keys added to the table, and entries
      already present are never changed. */
  lemma {:induction false} OneResolutionPerKey<M, E>(cache: map<string, Outcome<M, E>>, reqs: seq<Request>,
                                                     imp: string -> Outcome<M, E>)
    ensures var s := LoadAll(cache, reqs, imp);
      cache.Keys <= s.cache.Keys && s.resolutions == |s.cache.Keys - cache.Keys|
    ensures var s := LoadAll(cache, reqs, imp);
      forall k :: k in cache ==> s.cache[k] == cache[k]
    decreases |reqs|
  {
    if reqs != [] {
      var key := CacheKey(reqs[0].specifier, reqs[0].fallbackUrl);
      var c := LoadWithFallback(cache, reqs[0].specifier, reqs[0].fallbackUrl, imp);
      OneResolutionPerKey(c.cache, reqs[1..], imp);
      var s := LoadAll(c.cache, reqs[1..], imp);
      assert LoadAll(cache, reqs, imp).cache == s.cache;
      if key !in cache {
        NewKeyCount(cache.Keys, c.cache.Keys, s.cache.Keys, key);
      }
    }
  }

  /** Adding one new key to the table adds one to the count of new keys. */
  lemma NewKeyCount(before: set<string>, middle: set<string>, after: set<string>, key: string)
    requires key !in before && middle == before + {key} && middle <= after
    ensures |after - before| == |after - middle| + 1
  {
    assert after - before == (after - middle) + {key};
    assert key !in after - middle;
  }
}
