/**
 * The two cache-backed steps of compiling a Cypher query: parsing (served
 * from the query cache when the fingerprint is known) and planning (served
 * from the plan cache while the cached plan has not expired).
 *
 * Stripping and hashing the text, parsing it, and generating a plan are
 * passed in as functions; the clock is passed in as a reading `now`.
 */
module CypherQueryInterpreter {
  import opened Wrappers
  import opened CacheEntries
  import opened FingerprintCaches
  import opened Plans

  /** The errors a compilation attempt can end with; none of them is ever cached. */
  datatype QueryError = SyntaxError(message: string) | SemanticError(message: string) | PlanningError(message: string)

  /** A property value supplied by the user as a query parameter. */
  datatype PropertyValue = PropertyValue(id: nat)

  /** A privilege a query needs before it may run. */
  datatype Privilege = Privilege(id: nat)

  /** The query node inside an AST storage. */
  datatype QueryNode = QueryNode(id: nat)

  /** An identifier defined outside the query, such as by an enclosing procedure. */
  datatype Identifier = Identifier(name: string)

  /** The literals stripped out of the text, by token position. */
  datatype Parameters = Parameters(literals: map<int, PropertyValue>)

  /** The query text with literals stripped out, and the fingerprint of that text. */
  datatype StrippedQuery = StrippedQuery(query: string, literals: Parameters, hash: Fingerprint)

  /** What the query cache keeps for a fingerprint. */
  datatype CachedQuery = CachedQuery(astStorage: AstStorage, query: QueryNode, requiredPrivileges: seq<Privilege>)

  type QueryCacheEntry = CacheEntry<CachedQuery>
  type PlanCacheEntry = CacheEntry<CachedPlan>

  /** What the parser front end produces for a stripped query it accepts. */
  datatype FrontendResult = FrontendResult(cached: CachedQuery, isCacheable: bool)

  /** Everything parsing a query produced. */
  datatype ParsedQuery = ParsedQuery(
    queryString: string,
    userParameters: map<string, PropertyValue>,
    parameters: Parameters,
    strippedQuery: StrippedQuery,
    astStorage: AstStorage,
    query: QueryNode,
    requiredPrivileges: seq<Privilege>,
    isCacheable: bool)

  /** Builds a ParsedQuery; unless told otherwise it is cacheable. */
  function NewParsedQuery(
    queryString: string, userParameters: map<string, PropertyValue>, stripped: StrippedQuery,
    cached: CachedQuery, isCacheable: bool := true): ParsedQuery
  {
    ParsedQuery(queryString, userParameters, stripped.literals, stripped,
                cached.astStorage, cached.query, cached.requiredPrivileges, isCacheable)
  }

  /** A ParsedQuery built without saying otherwise is cacheable. */
  lemma ParsedQueryIsCacheableByDefault(
    queryString: string, userParameters: map<string, PropertyValue>, stripped: StrippedQuery, cached: CachedQuery)
    ensures NewParsedQuery(queryString, userParameters, stripped, cached).isCacheable
  {
  }

  /** The outcome of one step that may use and update a cache. */
  datatype Step<T, V> = Step(result: Result<T, QueryError>, cache: map<Fingerprint, V>)

  /**
   * ParseQuery on values: a query cached under the text's fingerprint is
   * served from the cache; otherwise the front end runs, and its result is
   * cached only when it succeeds and is cacheable.
   */
  function ParseQuerySpec(
    queryString: string, userParameters: map<string, PropertyValue>, cache: map<Fingerprint, CachedQuery>,
    strip: string -> StrippedQuery, frontend: StrippedQuery -> Result<FrontendResult, QueryError>)
    : (s: Step<ParsedQuery, CachedQuery>)
    ensures var h := strip(queryString).hash;
            && (s.result.Ok? ==>
                  && s.result.value.queryString == queryString
                  && s.result.value.userParameters == userParameters
                  && s.result.value.strippedQuery == strip(queryString))
            && (h in cache ==>
                  && s.cache == cache && s.result.Ok? && s.result.value.isCacheable
                  && s.result.value.astStorage == cache[h].astStorage
                  && s.result.value.query == cache[h].query
                  && s.result.value.requiredPrivileges == cache[h].requiredPrivileges)
            && (s.result.Err? ==> s.cache == cache)
            && (s.result.Ok? && !s.result.value.isCacheable ==> s.cache == cache)
            && (s.cache != cache ==> h !in cache && s.result.Ok? && h in s.cache && s.cache == cache[h := s.cache[h]])
    ensures var h := strip(queryString).hash;
            var front := frontend(strip(queryString));
            h !in cache && front.Err? ==> s == Step(Err(front.error), cache)
    ensures var h := strip(queryString).hash;
            var front := frontend(strip(queryString));
            h !in cache && front.Ok? ==>
              && s.result.Ok?
              && s.result.value.astStorage == front.value.cached.astStorage
              && s.result.value.query == front.value.cached.query
              && s.result.value.requiredPrivileges == front.value.cached.requiredPrivileges
              && s.result.value.isCacheable == front.value.isCacheable
              && (front.value.isCacheable ==> s.cache == cache[h := front.value.cached])
  {
    var stripped := strip(queryString);
    if stripped.hash in cache then
      Step(Ok(NewParsedQuery(queryString, userParameters, stripped, cache[stripped.hash])), cache)
    else
      match frontend(stripped)
      case Err(e) => Step(Err(e), cache)
      case Ok(f) =>
        Step(Ok(NewParsedQuery(queryString, userParameters, stripped, f.cached, f.isCacheable)),
             if f.isCacheable then cache[stripped.hash := f.cached] else cache)
  }

  /**
   * Parsing the same text twice, the second time against the cache the
   * first left behind, serves the first result from the cache when it was
   * cacheable: the second result does not depend on the front end at all.
   */
  lemma RepeatedParseIsServedFromCache(
    queryString: string, userParameters: map<string, PropertyValue>, cache: map<Fingerprint, CachedQuery>,
    strip: string -> StrippedQuery, frontend: StrippedQuery -> Result<FrontendResult, QueryError>,
    otherFrontend: StrippedQuery -> Result<FrontendResult, QueryError>)
    requires var first := ParseQuerySpec(queryString, userParameters, cache, strip, frontend);
             first.result.Ok? && first.result.value.isCacheable
    ensures var first := ParseQuerySpec(queryString, userParameters, cache, strip, frontend);
            var second := ParseQuerySpec(queryString, userParameters, first.cache, strip, otherFrontend);
            second == Step(first.result, first.cache)
  {
    var stripped := strip(queryString);
    if stripped.hash !in cache {
      var f := frontend(stripped).value;
      assert f.isCacheable;
    }
  }

  /** A query that is not cacheable leaves a missing fingerprint missing. */
  lemma NonCacheableQueryIsNotCached(
    queryString: string, userParameters: map<string, PropertyValue>, cache: map<Fingerprint, CachedQuery>,
    strip: string -> StrippedQuery, frontend: StrippedQuery -> Result<FrontendResult, QueryError>)
    requires strip(queryString).hash !in cache
    requires frontend(strip(queryString)).Ok? && !frontend(strip(queryString)).value.isCacheable
    ensures strip(queryString).hash !in ParseQuerySpec(queryString, userParameters, cache, strip, frontend).cache
  {
  }

  /** The inputs plan generation works from. */
  datatype PlanRequest = PlanRequest(
    astStorage: AstStorage, query: QueryNode, parameters: Parameters, predefinedIdentifiers: seq<Identifier>)

  /**
   * CypherQueryToPlan on values: an unexpired plan cached under `hash` is
   * returned as it is; otherwise the stale entry, if any, is dropped, a plan
   * is generated and time-stamped `now`, and it is cached only when the query
   * is cacheable.
   */
  function CypherQueryToPlanSpec(
    hash: Fingerprint, request: PlanRequest, cache: map<Fingerprint, CachedPlan>,
    makePlan: PlanRequest -> Result<LogicalPlan, QueryError>, now: int, ttl: Int32, isCacheable: bool)
    : (s: Step<CachedPlan, CachedPlan>)
    ensures hash in cache && !cache[hash].IsExpired(now, ttl) ==> s == Step(Ok(cache[hash]), cache)
    ensures forall k :: k != hash ==> (k in s.cache <==> k in cache)
    ensures forall k :: k != hash && k in cache ==> s.cache[k] == cache[k]
    ensures s.result.Ok? && !(hash in cache && s.result.value == cache[hash]) ==> s.result.value.createdAt == now
    ensures s.result.Ok? && isCacheable ==> hash in s.cache && s.cache[hash] == s.result.value
    ensures hash in s.cache ==> (hash in cache && s.cache[hash] == cache[hash]) || isCacheable
    ensures s.result.Err? ==> hash !in s.cache
    ensures !(hash in cache && !cache[hash].IsExpired(now, ttl)) && makePlan(request).Err? ==>
              s.result == Err(makePlan(request).error) && hash !in s.cache
    ensures !(hash in cache && !cache[hash].IsExpired(now, ttl)) && makePlan(request).Ok? ==>
              s.result == Ok(NewCachedPlan(makePlan(request).value, now))
  {
    if hash in cache && !cache[hash].IsExpired(now, ttl) then
      Step(Ok(cache[hash]), cache)
    else
      var evicted := cache - {hash};
      match makePlan(request)
      case Err(e) => Step(Err(e), evicted)
      case Ok(p) =>
        var plan := NewCachedPlan(p, now);
        Step(Ok(plan), if isCacheable then evicted[hash := plan] else evicted)
  }

  /**
   * Planning the same query twice, within the TTL of the first plan and
   * against the cache the first call left behind, returns the first plan
   * again and leaves the cache as it was, whatever the generator would do.
   */
  lemma RepeatedPlanIsServedFromCache(
    hash: Fingerprint, request: PlanRequest, cache: map<Fingerprint, CachedPlan>,
    makePlan: PlanRequest -> Result<LogicalPlan, QueryError>,
    otherMakePlan: PlanRequest -> Result<LogicalPlan, QueryError>, now: int, later: int, ttl: Int32)
    requires var first := CypherQueryToPlanSpec(hash, request, cache, makePlan, now, ttl, true);
             first.result.Ok? && now <= later && !first.result.value.IsExpired(later, ttl)
    ensures var first := CypherQueryToPlanSpec(hash, request, cache, makePlan, now, ttl, true);
            CypherQueryToPlanSpec(hash, request, first.cache, otherMakePlan, later, ttl, true) == first
  {
  }

  /**
   * A plan that is missing or found expired is never served from the cache:
   * the result is a plan generated now.
   */
  lemma ExpiredPlanIsRegenerated(
    hash: Fingerprint, request: PlanRequest, cache: map<Fingerprint, CachedPlan>,
    makePlan: PlanRequest -> Result<LogicalPlan, QueryError>, now: int, ttl: Int32, isCacheable: bool)
    requires !(hash in cache && !cache[hash].IsExpired(now, ttl))
    requires makePlan(request).Ok?
    ensures var s := CypherQueryToPlanSpec(hash, request, cache, makePlan, now, ttl, isCacheable);
            s.result == Ok(NewCachedPlan(makePlan(request).value, now))
            && (isCacheable <==> hash in s.cache)
  {
  }

  /**
   * Returns the parsed query for `queryString`: from the query cache when
   * its fingerprint is cached, otherwise from the front end, caching the
   * result when it is cacheable.
   */
  method ParseQuery(
    queryString: string, userParameters: map<string, PropertyValue>, cache: FingerprintCache<CachedQuery>,
    strip: string -> StrippedQuery, frontend: StrippedQuery -> Result<FrontendResult, QueryError>)
    returns (r: Result<ParsedQuery, QueryError>)
    requires cache.Valid()
    modifies cache
    ensures cache.Valid()
    ensures Step(r, cache.Contents()) == ParseQuerySpec(queryString, userParameters, old(cache.Contents()), strip, frontend)
  {
    var stripped := strip(queryString);
    var found := cache.Find(stripped.hash);
    if found.Some? {
      r := Ok(NewParsedQuery(queryString, userParameters, stripped, found.value.second));
      return;
    }
    match frontend(stripped)
    case Err(e) =>
      r := Err(e);
    case Ok(f) =>
      if f.isCacheable {
        var _ := cache.Insert(CacheEntry(stripped.hash, f.cached));
      }
      r := Ok(NewParsedQuery(queryString, userParameters, stripped, f.cached, f.isCacheable));
  }

  /**
   * Returns the cached plan for `hash`, or creates a fresh one, time-stamped
   * `now`, and caches it when the query is cacheable; a plan found expired is
   * dropped from the cache first.
   */
  method CypherQueryToPlan(
    hash: Fingerprint, astStorage: AstStorage, query: QueryNode, parameters: Parameters,
    planCache: FingerprintCache<CachedPlan>, makePlan: PlanRequest -> Result<LogicalPlan, QueryError>,
    now: int, ttl: Int32, isCacheable: bool := true, predefinedIdentifiers: seq<Identifier> := [])
    returns (r: Result<CachedPlan, QueryError>)
    requires planCache.Valid()
    modifies planCache
    ensures planCache.Valid()
    ensures Step(r, planCache.Contents()) ==
            CypherQueryToPlanSpec(hash, PlanRequest(astStorage, query, parameters, predefinedIdentifiers),
                                  old(planCache.Contents()), makePlan, now, ttl, isCacheable)
  {
    var found := planCache.Find(hash);
    if found.Some? {
      if !found.value.second.IsExpired(now, ttl) {
        r := Ok(found.value.second);
        return;
      }
      var _ := planCache.Remove(hash);
    } else {
      assert planCache.Contents() - {hash} == planCache.Contents();
    }
    match makePlan(PlanRequest(astStorage, query, parameters, predefinedIdentifiers))
    case Err(e) =>
      r := Err(e);
    case Ok(p) =>
      var plan := NewCachedPlan(p, now);
      if isCacheable {
        var _ := planCache.Insert(CacheEntry(hash, plan));
      }
      r := Ok(plan);
  }
}
