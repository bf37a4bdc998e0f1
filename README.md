# Query front end of a graph database: symbol scopes and fingerprint-keyed caches

This project models two sequential pieces of the Cypher query-compilation
front end of the Memgraph graph database, and proves properties about them.

**Symbol generation** (`symbol_generator.dfy`, `symbols.dfy`). While the
symbol generator walks a query's syntax tree, it keeps a `Scope`. The scope
holds context flags (in a pattern, in a CREATE, in a node or edge atom, in a
property map, in an aggregation, inside a WITH) and a map from variable names
to symbols. Symbols are written into a symbol table that the generator holds
by reference. Symbols are identified by their position in that table.
The model has three parts:
- specification functions on values: `CreateBinding`, `GetOrCreateBinding`
  and `WithBindings`;
- the class `SymbolGenerator`, which performs `CreateSymbol`,
  `GetOrCreateSymbol` and `SetWithSymbols` in place, and whose methods are
  proved against those functions;
- an object invariant, `Valid()`. It says that every bound symbol was
  generated by the table. It also holds the documented flag relations: "creating
  an edge" is exactly "in a CREATE and in an edge atom"; "creating only a node"
  implies "in a CREATE and in a node atom", but not the other way round.

Reusing a bound name succeeds when the types are `Compatible`: either side is
`Any`, or both are the same type. Otherwise it fails with a `TypeMismatch`
that names the variable.

**Caches and plan expiry** (`cache_entries.dfy`, `fingerprint_cache.dfy`,
`plans.dfy`, `cypher_query_interpreter.dfy`).
- Query-cache and plan-cache entries compare by their 64-bit fingerprint
  alone. They can be compared with another entry or with a bare key.
- A cache is a class holding its entries in the entries' own order.
  `LowerBound` and `Find` look entries up by key with `<` and `==`. The ghost
  view `Contents()` maps each fingerprint to its payload.
- `CachedPlan` wraps a logical plan together with the clock reading taken when
  it was created. It is expired once strictly more than the TTL, in seconds,
  has elapsed.
- `ParseQuery` serves a query from the query cache, or runs the front end and
  caches the result only if it is cacheable.
- `CypherQueryToPlan` returns an unexpired cached plan. Otherwise it drops the
  stale entry and generates a plan stamped with `now`. It caches the new plan
  only if the query is cacheable.

Each of these two operations has a specification function on values
(`ParseQuerySpec`, `CypherQueryToPlanSpec`). Lemmas about those functions
state the caching guarantees: a repeated request is served from the cache,
an expired plan is regenerated, and a non-cacheable query is never cached.

External inputs are parameters:
- stripping and hashing the query text (`strip`);
- the parser front end (`frontend`);
- plan generation (`makePlan`, which stands for the cost-based or rule-based
  planner and the database accessor);
- the monotonic clock (`now`, in nanoseconds);
- the `query_plan_cache_ttl` setting (`ttl`, in seconds).

## Model

| member | source | states |
|---|---|---|
| `Symbols.SymbolTable.CreateSymbol` | src/query/frontend/semantic/symbol_generator.hpp:82 | the shared table gains exactly one symbol, at the next unused position, with the requested name and type |
| `SymbolGenerators.CreateBinding` | src/query/frontend/semantic/symbol_generator.hpp:69-72 | the created symbol has the next position, the name and the type; afterwards the name is bound to it, whatever it was bound to before; the set of names is the old set plus the name; every other binding is unchanged |
| `SymbolGenerators.GetOrCreateBinding` | src/query/frontend/semantic/symbol_generator.hpp:74-77 | fails exactly when the name is bound with an incompatible type, and the error is a type mismatch naming the variable and both types; on success the name is bound to the returned symbol and its type is compatible with the requested one; a bound name yields the existing symbol and unchanged bindings |
| `SymbolGenerators.WithBindings` | src/query/frontend/semantic/symbol_generator.hpp:79-80 | the bound names after a WITH are exactly the names the clause projects |
| `SymbolGenerators.ReuseKeepsBindings` | src/query/frontend/semantic/symbol_generator.hpp:74-77 | a bound name whose type is compatible yields its existing symbol and leaves the bindings as they were |
| `SymbolGenerators.UnboundGetOrCreateCreates` | src/query/frontend/semantic/symbol_generator.hpp:67-77 | on an unbound name, GetOrCreateSymbol is CreateSymbol, and afterwards the name is bound (HasSymbol holds) |
| `SymbolGenerators.GetOrCreateIsIdempotent` | src/query/frontend/semantic/symbol_generator.hpp:74-77 | after a successful GetOrCreateSymbol, a second one with the same name and type returns the same symbol and binds nothing new |
| `SymbolGenerators.CreateKeepsBindingsGenerated` | src/query/frontend/semantic/symbol_generator.hpp:69-72 | a created symbol differs from every symbol generated earlier in the pass, and every binding still names a generated symbol |
| `SymbolGenerators.WithBindingsComeFromClause` | src/query/frontend/semantic/symbol_generator.hpp:79-80 | every binding after a WITH is one of the clause's outputs, so no binding from before survives unless the clause re-establishes it |
| `SymbolGenerators.WithBindingsLastWins` | src/query/frontend/semantic/symbol_generator.hpp:79-80 | a projected name is bound to the symbol of its last output in the clause |
| `SymbolGenerators.WithKeepsBindingsGenerated` | src/query/frontend/semantic/symbol_generator.hpp:79-80 | if the clause exposes generated symbols only, every binding after it names a generated symbol |
| `SymbolGenerators.SymbolGenerator.constructor` | src/query/frontend/semantic/symbol_generator.hpp:21-65 | the generator holds the given table by reference and starts with every flag off, outside any WITH and with nothing bound |
| `SymbolGenerators.SymbolGenerator.CreateSymbol` | src/query/frontend/semantic/symbol_generator.hpp:69-72 | the bindings and the returned symbol are those of CreateBinding at the table's size; the flags are unchanged; the table gains the symbol; the symbol differs from every earlier one; afterwards HasSymbol(name) holds; the invariant is kept |
| `SymbolGenerators.SymbolGenerator.GetOrCreateSymbol` | src/query/frontend/semantic/symbol_generator.hpp:74-77 | the result and the new bindings are those of GetOrCreateBinding; a type conflict changes neither the scope nor the table; the table grows only when a symbol is created; on success HasSymbol(name) holds and the name is bound to the result, and a failure happens only on a name that was already bound |
| `SymbolGenerators.SymbolGenerator.SetWithSymbols` | src/query/frontend/semantic/symbol_generator.hpp:79-80 | the bindings become exactly WithBindings of the clause, so HasSymbol holds exactly for the clause's output names; the flags are unchanged, and the invariant is kept |
| `SymbolGenerators.ResolveCreatePattern` | src/query/frontend/semantic/symbol_generator.hpp:16-18 | resolving `(a)-[b]->(c)` gives three symbols typed Vertex, Edge and Vertex at pairwise distinct table positions; a later `a` as a vertex returns the same symbol as the first |
| `SymbolGenerators.VertexReusedAsEdgeConflicts` | src/query/frontend/semantic/symbol_generator.hpp:74-77 | after `a` is bound as a vertex, asking for `a` as an edge is a type mismatch naming `a`, its vertex type and the requested edge type |
| `SymbolGenerators.DefaultTypeIsAny` | src/query/frontend/semantic/symbol_generator.hpp:71-77 | called without a type, both creation operations create a symbol of type Any |
| `CacheEntries.EqualsIgnoresPayload` | src/query/cypher_query_interpreter.hpp:74-75 | two entries are equal exactly when their fingerprints are equal; the payload plays no part |
| `CacheEntries.KeyComparisonAgrees` | src/query/cypher_query_interpreter.hpp:76-77 | comparing an entry with a bare fingerprint gives the same answer, for `==` and for `<`, as comparing it with an entry that has that fingerprint |
| `CacheEntries.LessIsStrictTotalOrder` | src/query/cypher_query_interpreter.hpp:85-95 | entry `<` (the same operators serve plan-cache entries) is irreflexive and transitive, and any two entries are exactly one of less, equal or greater |
| `FingerprintCaches.FingerprintCache.LowerBound` | src/query/cypher_query_interpreter.hpp:76-77 | returns the index that splits the ordered entries into those below the key and those not below it |
| `FingerprintCaches.FingerprintCache.Find` | src/query/cypher_query_interpreter.hpp:76-77 | lookup by key finds the entry carrying exactly that fingerprint, with the cached payload, and finds nothing when the fingerprint is not cached |
| `FingerprintCaches.FingerprintCache.Insert` | src/query/cypher_query_interpreter.hpp:111-112 | inserts when the fingerprint is not yet cached, and the cache then maps it to the entry's payload; otherwise the cache is unchanged; the order is kept |
| `FingerprintCaches.FingerprintCache.Remove` | src/query/cypher_query_interpreter.hpp:136-137 | afterwards the cache is the old one without the key, and the result says whether the key was cached |
| `Plans.CachedPlan.IsExpired` | src/query/cypher_query_interpreter.hpp:57-60 | expired exactly when the elapsed time, in seconds, is strictly greater than the TTL |
| `Plans.NewCachedPlan` | src/query/cypher_query_interpreter.hpp:48-64 | the accessors of the wrapper return what the wrapped plan's getters return, and a freshly wrapped plan is not expired for any TTL of zero or more |
| `Plans.SingleNodeGettersReturnConstructorArguments` | src/query/cypher_query_interpreter.hpp:114-123 | the getters return the root, cost, storage and symbol table the plan was constructed with |
| `Plans.ExpiryBoundary` | src/query/cypher_query_interpreter.hpp:57-60 | at exactly TTL seconds a plan is not expired; one clock tick later it is |
| `Plans.ExpiryIsMonotone` | src/query/cypher_query_interpreter.hpp:57-60 | once expired, a plan stays expired as the clock advances |
| `CypherQueryInterpreter.ParsedQueryIsCacheableByDefault` | src/query/cypher_query_interpreter.hpp:100-109 | a parsed query built without stating its cacheability is cacheable |
| `CypherQueryInterpreter.ParseQuerySpec` | src/query/cypher_query_interpreter.hpp:111-112 | a cached fingerprint is served from the cache, as a cacheable query, and the cache is left unchanged; an error or a non-cacheable result leaves the cache unchanged; the cache changes only by adding the missing fingerprint; on a miss, a front-end error is returned as it is with the cache unchanged, and a front-end success gives a result carrying the front end's AST, query, privileges and cacheability, inserted under the fingerprint when cacheable |
| `CypherQueryInterpreter.RepeatedParseIsServedFromCache` | src/query/cypher_query_interpreter.hpp:111-112 | parsing a cacheable query a second time returns the first result and leaves the cache as it was, whatever the front end would do |
| `CypherQueryInterpreter.NonCacheableQueryIsNotCached` | src/query/cypher_query_interpreter.hpp:108-112 | a query that is not cacheable leaves its fingerprint absent from the query cache |
| `CypherQueryInterpreter.CypherQueryToPlanSpec` | src/query/cypher_query_interpreter.hpp:132-139 | an unexpired cached plan is returned and the cache is left unchanged; other fingerprints' entries never change; a plan not taken from the cache is stamped now; a cacheable success is cached under the hash; a non-cacheable query never adds the hash; a failure leaves the hash uncached; on a miss or an expired hit the result is the generator's error, or the generator's plan stamped now |
| `CypherQueryInterpreter.RepeatedPlanIsServedFromCache` | src/query/cypher_query_interpreter.hpp:132-139 | planning again within the first plan's TTL returns the same plan and leaves the cache unchanged, whatever the generator would do |
| `CypherQueryInterpreter.ExpiredPlanIsRegenerated` | src/query/cypher_query_interpreter.hpp:132-139 | a plan that is missing or found expired is not served from the cache: a plan generated now is returned, and it is cached exactly when the query is cacheable |
| `CypherQueryInterpreter.ParseQuery` | src/query/cypher_query_interpreter.hpp:111-112 | the result and the new query cache are exactly those of ParseQuerySpec, and the cache order is kept |
| `CypherQueryInterpreter.CypherQueryToPlan` | src/query/cypher_query_interpreter.hpp:132-139 | the result and the new plan cache are exactly those of CypherQueryToPlanSpec, and the cache order is kept |

## Left out

- The `Visit`/`PostVisit` methods of the symbol generator (src/query/frontend/semantic/symbol_generator.hpp:26-45) are not modelled. Their bodies and the AST classes are not part of this model. As a result, the flags are never toggled here, and the undeclared-variable and nested-aggregation errors are not modelled. The flag relations are kept as part of the generator's invariant.
- The symbol table's own source (symbol_table.hpp) is not part of this model. Its symbol creation is modelled as appending a symbol at the next position, so a symbol's position is its identity. The table's mapping from AST nodes to symbols is not modelled.
- A WITH clause is modelled only as its named outputs. Each output's symbol must already be in the table, as it is when the walk has visited the clause's expressions. When two outputs share a name, the later one wins, as with repeated map assignment.
- The concurrent skip lists and the parser spin lock (src/query/cypher_query_interpreter.hpp:111-112, 136-137) are not modelled. The caches are sequential, and concurrent races that recompute the same fingerprint are not modelled.
- `FingerprintCaches.FingerprintCache.Insert`: an entry whose fingerprint is already cached is not overwritten (ordered-set insertion). Inside `ParseQuery` and `CypherQueryToPlan` the fingerprint is always absent at the point of insertion, so this choice does not show there.
- `CypherQueryToPlan` drops an expired entry before it generates the replacement. So after a failed or non-cacheable regeneration the fingerprint is uncached. The function's body is not part of this model, and this order is a modelling decision.
- Stripping literals and hashing the text, the ANTLR parser, `CypherMainVisitor` and the required-privileges computation are passed in as functions. A parsed query's `parameters` are the stripped literals. How user parameters are combined with them is not modelled.
- The planner, `DbAccessor`, the `query_cost_planner` choice and `predefined_identifiers` are folded into the plan generator `makePlan`. The operator tree is a handle. The `double` cost is a `real` on which no arithmetic is done.
- `utils::Timer` is replaced by an injected nanosecond clock reading. The gflags globals (src/query/cypher_query_interpreter.hpp:22-25) are replaced by parameters.
- Ownership and lifetime are not modelled. This covers `AstStorage`, the `unique_ptr`/`shared_ptr` handles, and the copy of the cached AST that a cache hit hands out (a value here). The abstract `LogicalPlan` interface is represented by its one implementation shown, `SingleNodeLogicalPlan`.
- tests/unit/mgp_kafka_c_api.cpp exercises the embedded-procedure C API with mocked Kafka messages. It is not part of this model.
