/** `Ai::Data::ResolveAvailableData`: decides whether a message needs web
    sources and where they come from. It answers `not_needed` when neither the
    intent metadata nor the instruction asks for sources, `use_cache` when the
    chat's cache holds the query's signature and no refresh is forced,
    `search` after a successful fetch (which upserts the cache), and on a failed
    fetch falls back to the cache (`use_cache` with the error) or reports
    `search_failed`. The two regular expressions, the digest and the fetcher
    are parameters of the model. */
module ResolveAvailableData {
  import opened Wrappers
  import opened Text
  import opened Values
  import SourceCacheKey

  datatype Decision = NotNeeded | UseCache | Search | SearchFailed

  function DecisionName(d: Decision): string {
    match d
    case NotNeeded => "not_needed"
    case UseCache => "use_cache"
    case Search => "search"
    case SearchFailed => "search_failed"
  }

  /** A `DataSourceCache` row of the chat. */
  datatype Cache = Cache(queryText: string, dataJson: Value, sourcesJson: Value)

  /** What the fetcher returns: `ok`, `available_data`, `sources_json`, `error`. */
  datatype Fetched = Fetched(ok: bool, availableData: Value, sourcesJson: Value, error: Option<string>)

  /** The result hash of `call`. */
  datatype Outcome = Outcome(needed: bool, decision: Decision, forcedRefresh: bool, querySignature: string,
                             availableData: Option<Value>, error: Option<string>)

  /** `truthy?(meta[:name]) || truthy?(meta["name"])`: the value must be `true` itself. */
  predicate Flag(meta: seq<(Key, Value)>, name: string) {
    Get(meta, SymKey(name)) == Some(Bool(true)) || Get(meta, StrKey(name)) == Some(Bool(true))
  }

  /** `needs_sources?`, with `SOURCE_NEEDS_HEURISTIC.match?` as `heuristic`. */
  predicate NeedsSources(meta: Value, instruction: string, heuristic: string -> bool) {
    var m := if meta.Hash? then meta.entries else [];
    Flag(m, "needs_sources") || Flag(m, "suggest_web_search") || heuristic(instruction)
  }

  /** `force_refresh_requested?`, with `REFRESH_SEARCH_PATTERN.match?` as `refreshPattern`. */
  predicate ForceRefresh(settings: Value, instruction: string, refreshPattern: string -> bool) {
    (settings.Hash? && Get(settings.entries, StrKey("force_web_search")) == Some(Bool(true))) || refreshPattern(instruction)
  }

  /** The `available_data` hash `cache_result` builds from a cache row. */
  function AvailableFrom(cache: Cache): (r: seq<(Key, Value)>)
    ensures Truthy(Get(r, StrKey("query")).GetOr(Nil))
    ensures var base := if cache.dataJson.Hash? then cache.dataJson.entries else [];
      Get(r, StrKey("sources")) ==
        (if cache.sourcesJson.Arr? && BlankValue(Get(base, StrKey("sources")).GetOr(Nil)) then Some(cache.sourcesJson)
         else Get(base, StrKey("sources")))
    ensures var base := if cache.dataJson.Hash? then cache.dataJson.entries else [];
      Get(r, StrKey("query")) ==
        (if Truthy(Get(base, StrKey("query")).GetOr(Nil)) then Get(base, StrKey("query")) else Some(Str(cache.queryText)))
    ensures var base := if cache.dataJson.Hash? then cache.dataJson.entries else [];
      forall k: Key :: k != StrKey("sources") && k != StrKey("query") ==> Get(r, k) == Get(base, k)
  {
    var base := if cache.dataJson.Hash? then cache.dataJson.entries else [];
    var withSources := if cache.sourcesJson.Arr? && BlankValue(Get(base, StrKey("sources")).GetOr(Nil)) then
      HashSet(base, StrKey("sources"), cache.sourcesJson) else base;
    if Truthy(Get(withSources, StrKey("query")).GetOr(Nil)) then withSources
    else HashSet(withSources, StrKey("query"), Str(cache.queryText))
  }

  /** `cache_result`: the data is never empty, since it always has a `query`. */
  function CacheResult(key: SourceCacheKey.CacheKey, cache: Cache, decision: Decision, forced: bool, error: Option<string>): (r: Outcome)
    ensures r.needed && r.decision == decision && r.forcedRefresh == forced && r.error == error
    ensures r.querySignature == key.querySignature
    ensures r.availableData == Some(Hash(AvailableFrom(cache)))
  {
    var data := AvailableFrom(cache);
    assert data != [] by {
      assert Get(data, StrKey("query")).Some?;
    }
    Outcome(true, decision, forced, key.querySignature, Some(Hash(data)), error)
  }

  function NotNeededResult(key: SourceCacheKey.CacheKey): Outcome {
    Outcome(false, NotNeeded, false, key.querySignature, None, None)
  }

  /** The row `upsert_cache!` saves. */
  function UpsertedCache(key: SourceCacheKey.CacheKey, instruction: string, fetched: Fetched): (c: Cache)
    ensures c.dataJson.Hash? && c.sourcesJson.Arr?
    ensures fetched.availableData.Hash? ==> c.dataJson == fetched.availableData
    ensures fetched.sourcesJson.Arr? ==> c.sourcesJson == fetched.sourcesJson
  {
    Cache(if Blank(key.queryText) then instruction else key.queryText,
          if fetched.availableData.Hash? then fetched.availableData else Hash([]),
          if fetched.sourcesJson.Arr? then fetched.sourcesJson else Arr([]))
  }

  /** The outcome of `call`, the chat's cache afterwards, and whether the
      fetcher was called. */
  datatype Resolution = Resolution(outcome: Outcome, caches: map<string, Cache>, fetcherCalled: bool)

  function Resolve(caches: map<string, Cache>, instruction: string, meta: Value, settings: Value,
                   heuristic: string -> bool, refreshPattern: string -> bool, sha256: string -> string,
                   fetch: (string, Option<Value>) -> Fetched): Resolution
  {
    var key := SourceCacheKey.Key(instruction, sha256);
    var sig := key.querySignature;
    if !NeedsSources(meta, instruction, heuristic) then Resolution(NotNeededResult(key), caches, false)
    else
      var forced := ForceRefresh(settings, instruction, refreshPattern);
      if sig in caches && !forced then Resolution(CacheResult(key, caches[sig], UseCache, false, None), caches, false)
      else
        var fetched := fetch(instruction, if sig in caches then Some(caches[sig].sourcesJson) else None);
        if fetched.ok then
          var saved := UpsertedCache(key, instruction, fetched);
          Resolution(CacheResult(key, saved, Search, forced, None), caches[sig := saved], true)
        else if sig in caches then
          Resolution(CacheResult(key, caches[sig], UseCache, forced, fetched.error), caches, true)
        else
          Resolution(Outcome(true, SearchFailed, forced, sig, None, Some(fetched.error.GetOr(""))), caches, true)
  }

  /** The `DataSourceCache` rows of one chat, by query signature. */
  class CacheStore {
    var caches: map<string, Cache>

    constructor (caches0: map<string, Cache>)
      ensures caches == caches0
    {
      caches := caches0;
    }

    /** `upsert_cache!`: find or initialise the signature's row, then save it. */
    method Upsert(signature: string, cache: Cache)
      modifies this
      ensures caches == old(caches)[signature := cache]
    {
      caches := caches[signature := cache];
    }
  }

  /** `call`. */
  method Call(store: CacheStore, instruction: string, meta: Value, settings: Value,
              heuristic: string -> bool, refreshPattern: string -> bool, sha256: string -> string,
              fetch: (string, Option<Value>) -> Fetched)
    returns (r: Outcome, fetcherCalls: nat)
    modifies store
    ensures var res := Resolve(old(store.caches), instruction, meta, settings, heuristic, refreshPattern, sha256, fetch);
      r == res.outcome && store.caches == res.caches && fetcherCalls == (if res.fetcherCalled then 1 else 0)
  {
    var key := SourceCacheKey.Key(instruction, sha256);
    var sig := key.querySignature;
    if !NeedsSources(meta, instruction, heuristic) {
      return NotNeededResult(key), 0;
    }
    var forced := ForceRefresh(settings, instruction, refreshPattern);
    var cache: Option<Cache> := if sig in store.caches then Some(store.caches[sig]) else None;
    if cache.Some? && !forced {
      return CacheResult(key, cache.value, UseCache, false, None), 0;
    }
    var fetched := fetch(instruction, if cache.Some? then Some(cache.value.sourcesJson) else None);
    fetcherCalls := 1;
    if fetched.ok {
      var saved := UpsertedCache(key, instruction, fetched);
      store.Upsert(sig, saved);
      return CacheResult(key, saved, Search, forced, None), 1;
    }
    if cache.Some? {
      return CacheResult(key, cache.value, UseCache, forced, fetched.error), 1;
    }
    r := Outcome(true, SearchFailed, forced, sig, None, Some(fetched.error.GetOr("")));
  }

  // ---------------------------------------------------------------- properties

  /** Not needed: decision `not_needed`, no data, no fetch and no cache write. */
  lemma NotNeededSpec(caches: map<string, Cache>, instruction: string, meta: Value, settings: Value,
                      heuristic: string -> bool, refreshPattern: string -> bool, sha256: string -> string,
                      fetch: (string, Option<Value>) -> Fetched)
    requires !NeedsSources(meta, instruction, heuristic)
    ensures var res := Resolve(caches, instruction, meta, settings, heuristic, refreshPattern, sha256, fetch);
      !res.outcome.needed && res.outcome.decision == NotNeeded && !res.outcome.forcedRefresh &&
      res.outcome.availableData.None? && res.outcome.error.None? && !res.fetcherCalled && res.caches == caches
  {
  }

  /** A cache hit without a forced refresh uses the cache and fetches nothing. */
  lemma CacheHitSpec(caches: map<string, Cache>, instruction: string, meta: Value, settings: Value,
                     heuristic: string -> bool, refreshPattern: string -> bool, sha256: string -> string,
                     fetch: (string, Option<Value>) -> Fetched)
    requires NeedsSources(meta, instruction, heuristic) && !ForceRefresh(settings, instruction, refreshPattern)
    requires SourceCacheKey.Key(instruction, sha256).querySignature in caches
    ensures var res := Resolve(caches, instruction, meta, settings, heuristic, refreshPattern, sha256, fetch);
      res.outcome.needed && res.outcome.decision == UseCache && res.outcome.error.None? &&
      res.outcome.availableData == Some(Hash(AvailableFrom(caches[SourceCacheKey.Key(instruction, sha256).querySignature]))) &&
      !res.fetcherCalled && res.caches == caches
  {
  }

  /** A successful fetch stores its data under the query's signature, leaves
      every other cache row alone and answers `search` with that data. */
  lemma SearchSpec(caches: map<string, Cache>, instruction: string, meta: Value, settings: Value,
                   heuristic: string -> bool, refreshPattern: string -> bool, sha256: string -> string,
                   fetch: (string, Option<Value>) -> Fetched)
    requires NeedsSources(meta, instruction, heuristic)
    requires var sig := SourceCacheKey.Key(instruction, sha256).querySignature;
      (sig !in caches || ForceRefresh(settings, instruction, refreshPattern)) &&
      fetch(instruction, if sig in caches then Some(caches[sig].sourcesJson) else None).ok
    ensures var sig := SourceCacheKey.Key(instruction, sha256).querySignature;
      var res := Resolve(caches, instruction, meta, settings, heuristic, refreshPattern, sha256, fetch);
      res.fetcherCalled && res.outcome.decision == Search && res.outcome.error.None? &&
      sig in res.caches && res.outcome.availableData == Some(Hash(AvailableFrom(res.caches[sig]))) &&
      (forall s :: s != sig ==> (s in res.caches <==> s in caches) && (s in caches ==> res.caches[s] == caches[s]))
  {
  }

  /** A failed fetch falls back to an existing cache row, reporting the error;
      without one the decision is `search_failed` with no data. The cache is
      left as it was. */
  lemma FailedFetchSpec(caches: map<string, Cache>, instruction: string, meta: Value, settings: Value,
                        heuristic: string -> bool, refreshPattern: string -> bool, sha256: string -> string,
                        fetch: (string, Option<Value>) -> Fetched)
    requires NeedsSources(meta, instruction, heuristic)
    requires var sig := SourceCacheKey.Key(instruction, sha256).querySignature;
      (sig !in caches || ForceRefresh(settings, instruction, refreshPattern)) &&
      !fetch(instruction, if sig in caches then Some(caches[sig].sourcesJson) else None).ok
    ensures var sig := SourceCacheKey.Key(instruction, sha256).querySignature;
      var fetched := fetch(instruction, if sig in caches then Some(caches[sig].sourcesJson) else None);
      var res := Resolve(caches, instruction, meta, settings, heuristic, refreshPattern, sha256, fetch);
      res.fetcherCalled && res.caches == caches && res.outcome.needed &&
      (sig in caches ==> (res.outcome.decision == UseCache && res.outcome.error == fetched.error &&
                          res.outcome.availableData.Some?)) &&
      (sig !in caches ==> (res.outcome.decision == SearchFailed && res.outcome.availableData.None? &&
                           res.outcome.error == Some(fetched.error.GetOr(""))))
  {
  }

  /** The fetcher is called exactly when sources are needed and either no row
      matches the signature or a refresh is forced. */
  lemma FetcherCalledIff(caches: map<string, Cache>, instruction: string, meta: Value, settings: Value,
                         heuristic: string -> bool, refreshPattern: string -> bool, sha256: string -> string,
                         fetch: (string, Option<Value>) -> Fetched)
    ensures Resolve(caches, instruction, meta, settings, heuristic, refreshPattern, sha256, fetch).fetcherCalled <==>
      (NeedsSources(meta, instruction, heuristic) &&
       (SourceCacheKey.Key(instruction, sha256).querySignature !in caches || ForceRefresh(settings, instruction, refreshPattern)))
  {
    var sig := SourceCacheKey.Key(instruction, sha256).querySignature;
    if !NeedsSources(meta, instruction, heuristic) {
      NotNeededSpec(caches, instruction, meta, settings, heuristic, refreshPattern, sha256, fetch);
    } else if sig in caches && !ForceRefresh(settings, instruction, refreshPattern) {
      CacheHitSpec(caches, instruction, meta, settings, heuristic, refreshPattern, sha256, fetch);
    } else if fetch(instruction, if sig in caches then Some(caches[sig].sourcesJson) else None).ok {
      SearchSpec(caches, instruction, meta, settings, heuristic, refreshPattern, sha256, fetch);
    } else {
      FailedFetchSpec(caches, instruction, meta, settings, heuristic, refreshPattern, sha256, fetch);
    }
  }

  /** `needs_sources?` looks only at values that are `true` itself: a truthy
      string such as "yes" does not count. */
  lemma FlagNeedsTrue(name: string)
    ensures !Flag([(SymKey(name), Str("yes"))], name)
    ensures Flag([(StrKey(name), Bool(true))], name)
  {
    assert Get([(SymKey(name), Str("yes"))], StrKey(name)) == None;
  }

  /** `cache_result` fills `sources` from the row only when the data has none,
      and defaults `query` to the row's query text. */
  lemma CacheResultDefaults(cache: Cache)
    requires cache.dataJson == Hash([]) && cache.sourcesJson.Arr?
    ensures Get(AvailableFrom(cache), StrKey("sources")) == Some(cache.sourcesJson)
    ensures Get(AvailableFrom(cache), StrKey("query")) == Some(Str(cache.queryText))
  {
  }
}
