/**
 * Logical plans and the cached-plan wrapper that time-stamps them.
 *
 * The planner's operator tree and the syntax-tree storage are carried as
 * handles: a plan is compared, stored and returned, never walked, here.
 */
module Plans {
  import Symbols

  /** The root operator of a plan's operator tree. */
  datatype LogicalOperator = LogicalOperator(id: nat)

  /** The storage that owns a query's syntax tree; a plan keeps it alive. */
  datatype AstStorage = AstStorage(id: nat)

  /** A signed 32-bit integer: the type of the plan-cache TTL setting. */
  type Int32 = x: int | -0x8000_0000 <= x < 0x8000_0000

  /** The clock is read in nanoseconds of a monotonic clock. */
  const NanosPerSecond: int := 1_000_000_000

  /**
   * A plan over a single node: its getters return exactly the root, cost,
   * storage and symbol table it was built from.
   */
  datatype LogicalPlan = SingleNodeLogicalPlan(
    root: LogicalOperator, cost: real, storage: AstStorage, symbolTable: seq<Symbols.Symbol>)
  {
    function GetRoot(): LogicalOperator { root }
    function GetCost(): real { cost }
    function GetSymbolTable(): seq<Symbols.Symbol> { symbolTable }
    function GetAstStorage(): AstStorage { storage }
  }

  /** A logical plan together with the clock reading taken when it was wrapped. */
  datatype CachedPlan = CachedPlan(logicalPlan: LogicalPlan, createdAt: int)
  {
    function Plan(): LogicalOperator { logicalPlan.GetRoot() }
    function Cost(): real { logicalPlan.GetCost() }
    function SymbolTable(): seq<Symbols.Symbol> { logicalPlan.GetSymbolTable() }
    function Storage(): AstStorage { logicalPlan.GetAstStorage() }

    /**
     * Whether more than `ttl` seconds have passed since the plan was wrapped:
     * the elapsed time, in seconds, strictly exceeds the TTL.
     */
    function IsExpired(now: int, ttl: Int32): (expired: bool)
      ensures expired <==> (now - createdAt) as real / NanosPerSecond as real > ttl as real
    {
      now - createdAt > ttl * NanosPerSecond
    }
  }

  /** Wraps `plan`, starting its timer at `now`. */
  function NewCachedPlan(plan: LogicalPlan, now: int): (c: CachedPlan)
    ensures c.Plan() == plan.GetRoot() && c.Cost() == plan.GetCost()
    ensures c.SymbolTable() == plan.GetSymbolTable() && c.Storage() == plan.GetAstStorage()
    ensures forall ttl: Int32 :: ttl >= 0 ==> !c.IsExpired(now, ttl)
  {
    CachedPlan(plan, now)
  }

  /** The getters of a single-node plan return what it was constructed with. */
  lemma SingleNodeGettersReturnConstructorArguments(
    root: LogicalOperator, cost: real, storage: AstStorage, table: seq<Symbols.Symbol>)
    ensures var p := SingleNodeLogicalPlan(root, cost, storage, table);
            p.GetRoot() == root && p.GetCost() == cost && p.GetAstStorage() == storage && p.GetSymbolTable() == table
  {
  }

  /** A cached plan is not expired at exactly `ttl` seconds, and is one clock tick later. */
  lemma ExpiryBoundary(c: CachedPlan, ttl: Int32)
    ensures !c.IsExpired(c.createdAt + ttl * NanosPerSecond, ttl)
    ensures c.IsExpired(c.createdAt + ttl * NanosPerSecond + 1, ttl)
  {
  }

  /** Once expired, a cached plan stays expired as the clock moves on. */
  lemma ExpiryIsMonotone(c: CachedPlan, ttl: Int32, now: int, later: int)
    requires now <= later && c.IsExpired(now, ttl)
    ensures c.IsExpired(later, ttl)
  {
  }
}
