/**
 * Symbols and the symbol table the symbol generator writes into.
 *
 * A symbol identifies one declared query variable: its name, its position in
 * the symbol table (the symbol's identity) and its type tag.
 */
module Symbols {

  /** The type tag a symbol is declared with; `Any` matches every other tag. */
  datatype SymbolType = Any | Vertex | Edge | Path | Value

  datatype Symbol = Symbol(name: string, position: nat, typ: SymbolType)

  /**
   * Whether a symbol declared with type `existing` may be reused where a
   * variable of type `requested` is expected.
   */
  predicate Compatible(existing: SymbolType, requested: SymbolType)
  {
    existing == Any || requested == Any || existing == requested
  }

  /** The semantic error raised when a reused variable's type conflicts. */
  datatype SemanticError = TypeMismatch(name: string, existing: SymbolType, requested: SymbolType)

  /** `s` is the symbol stored in `table` at its own position. */
  predicate Generated(table: seq<Symbol>, s: Symbol)
  {
    s.position < |table| && table[s.position] == s
  }

  /** Every symbol sits at the position that identifies it. */
  ghost predicate PositionsAreIdentities(table: seq<Symbol>)
  {
    forall i :: 0 <= i < |table| ==> table[i].position == i
  }

  /**
   * The symbol table of one resolution pass. It is shared by reference with
   * the symbol generator, which is its only writer during the pass.
   */
  class SymbolTable {
    var symbols: seq<Symbol>

    ghost predicate Valid()
      reads this
    {
      PositionsAreIdentities(symbols)
    }

    constructor ()
      ensures Valid() && symbols == []
    {
      symbols := [];
    }

    /** Appends a symbol whose position is the next unused one. */
    method CreateSymbol(name: string, typ: SymbolType) returns (s: Symbol)
      requires Valid()
      modifies this
      ensures Valid()
      ensures s == Symbol(name, |old(symbols)|, typ)
      ensures symbols == old(symbols) + [s]
    {
      s := Symbol(name, |symbols|, typ);
      symbols := symbols + [s];
    }
  }
}
