/**
 * The scope kept by the symbol generator while it walks a query's syntax tree,
 * and the operations that bind variable names to symbols in it.
 *
 * The specification functions (CreateBinding, GetOrCreateBinding,
 * WithBindings) describe each operation on values; the class SymbolGenerator
 * performs them in place on its scope and on the shared symbol table, and its
 * methods are proved against those functions.
 */
module SymbolGenerators {
  import opened Wrappers
  import opened Symbols

  /** One result of a WITH clause: the name it exposes and that name's symbol. */
  datatype NamedOutput = NamedOutput(name: string, symbol: Symbol)

  /** A WITH clause, reduced to the named results it projects. */
  datatype WithClause = WithClause(outputs: seq<NamedOutput>)

  /** Where the traversal currently is, and which names are bound to which symbols. */
  datatype Scope = Scope(
    inPattern: bool,
    inCreate: bool,
    inCreateNode: bool,
    inCreateEdge: bool,
    inNodeAtom: bool,
    inEdgeAtom: bool,
    inPropertyMap: bool,
    inAggregation: bool,
    with: Option<WithClause>,
    symbols: map<string, Symbol>)

  /** The scope a generator starts with: every flag off, outside any WITH, nothing bound. */
  const InitialScope := Scope(false, false, false, false, false, false, false, false, None, map[])

  /**
   * The documented relation between the context flags: creating an edge is
   * exactly being in a CREATE and in an edge atom, while creating only a node
   * implies, but is not implied by, being in a CREATE and in a node atom.
   */
  predicate FlagsConsistent(s: Scope)
  {
    && (s.inCreateEdge <==> s.inCreate && s.inEdgeAtom)
    && (s.inCreateNode ==> s.inCreate && s.inNodeAtom)
  }

  /** Every bound symbol is one the symbol table generated. */
  ghost predicate BindingsGenerated(symbols: map<string, Symbol>, table: seq<Symbol>)
  {
    forall n :: n in symbols ==> Generated(table, symbols[n])
  }

  /** The bindings after a creation or a lookup, and the symbol it yields. */
  datatype Binding = Binding(symbols: map<string, Symbol>, symbol: Symbol)

  /**
   * CreateSymbol on values: a symbol at the next free position `next`, bound
   * to `name` in place of whatever `name` was bound to before.
   */
  function CreateBinding(symbols: map<string, Symbol>, next: nat, name: string, typ: SymbolType): (b: Binding)
    ensures b.symbol.name == name && b.symbol.position == next && b.symbol.typ == typ
    ensures b.symbols.Keys == symbols.Keys + {name}
    ensures b.symbols[name] == b.symbol
    ensures forall n :: n in symbols && n != name ==> b.symbols[n] == symbols[n]
  {
    var s := Symbol(name, next, typ);
    Binding(symbols[name := s], s)
  }

  /**
   * GetOrCreateSymbol on values: reuse the bound symbol when its type is
   * compatible with `typ`, fail with a type mismatch when it is not, and
   * create a fresh symbol when `name` is unbound.
   */
  function GetOrCreateBinding(symbols: map<string, Symbol>, next: nat, name: string, typ: SymbolType)
    : (r: Result<Binding, SemanticError>)
    ensures r.Err? <==> name in symbols && !Compatible(symbols[name].typ, typ)
    ensures r.Err? ==> r.error == TypeMismatch(name, symbols[name].typ, typ)
    ensures r.Ok? ==> name in r.value.symbols && r.value.symbols[name] == r.value.symbol
    ensures r.Ok? ==> Compatible(r.value.symbol.typ, typ)
    ensures r.Ok? && name in symbols ==> r.value == Binding(symbols, symbols[name])
  {
    if name in symbols then
      var existing := symbols[name];
      if Compatible(existing.typ, typ) then Ok(Binding(symbols, existing))
      else Err(TypeMismatch(name, existing.typ, typ))
    else
      Ok(CreateBinding(symbols, next, name, typ))
  }

  /** The names a WITH clause projects. */
  function OutputNames(outputs: seq<NamedOutput>): set<string>
  {
    set o | o in outputs :: o.name
  }

  /**
   * SetWithSymbols on values: the bindings are exactly the clause's outputs,
   * a later output of the same name overriding an earlier one.
   */
  function WithBindings(outputs: seq<NamedOutput>): (m: map<string, Symbol>)
    ensures m.Keys == OutputNames(outputs)
  {
    if outputs == [] then map[]
    else
      var n := |outputs| - 1;
      assert outputs == outputs[..n] + [outputs[n]];
      WithBindings(outputs[..n])[outputs[n].name := outputs[n].symbol]
  }

  /** Reusing a compatible binding changes nothing and yields the bound symbol. */
  lemma ReuseKeepsBindings(symbols: map<string, Symbol>, next: nat, name: string, typ: SymbolType)
    requires name in symbols && Compatible(symbols[name].typ, typ)
    ensures GetOrCreateBinding(symbols, next, name, typ) == Ok(Binding(symbols, symbols[name]))
  {
  }

  /** On an unbound name, GetOrCreateSymbol is CreateSymbol, and the name is bound afterwards. */
  lemma UnboundGetOrCreateCreates(symbols: map<string, Symbol>, next: nat, name: string, typ: SymbolType)
    requires name !in symbols
    ensures GetOrCreateBinding(symbols, next, name, typ) == Ok(CreateBinding(symbols, next, name, typ))
    ensures name in GetOrCreateBinding(symbols, next, name, typ).value.symbols
  {
  }

  /**
   * A second GetOrCreateSymbol of the same name and type, after one that
   * succeeded, yields the same symbol and binds nothing new, whatever the
   * symbol table's size is by then.
   */
  lemma GetOrCreateIsIdempotent(symbols: map<string, Symbol>, next: nat, later: nat, name: string, typ: SymbolType)
    requires GetOrCreateBinding(symbols, next, name, typ).Ok?
    ensures var b := GetOrCreateBinding(symbols, next, name, typ).value;
            GetOrCreateBinding(b.symbols, later, name, typ) == Ok(b)
  {
  }

  /**
   * Creating at the table's next position keeps every binding generated, and
   * the new symbol is distinct from every symbol generated before it.
   */
  lemma CreateKeepsBindingsGenerated(symbols: map<string, Symbol>, table: seq<Symbol>, name: string, typ: SymbolType)
    requires PositionsAreIdentities(table) && BindingsGenerated(symbols, table)
    ensures var b := CreateBinding(symbols, |table|, name, typ);
            && BindingsGenerated(b.symbols, table + [b.symbol])
            && (forall t :: t in table ==> t != b.symbol)
  {
    var b := CreateBinding(symbols, |table|, name, typ);
    forall n | n in b.symbols
      ensures Generated(table + [b.symbol], b.symbols[n])
    {
      if n != name {
        assert Generated(table, symbols[n]);
      }
    }
    forall t | t in table
      ensures t != b.symbol
    {
      var i :| 0 <= i < |table| && table[i] == t;
      assert t.position == i;
    }
  }

  /** After a WITH, every binding is one of the clause's outputs: nothing from before survives. */
  lemma {:induction false} WithBindingsComeFromClause(outputs: seq<NamedOutput>, name: string)
    requires name in WithBindings(outputs)
    ensures exists i :: 0 <= i < |outputs| && outputs[i] == NamedOutput(name, WithBindings(outputs)[name])
  {
    var n := |outputs| - 1;
    if outputs[n].name == name {
      assert outputs[n] == NamedOutput(name, WithBindings(outputs)[name]);
    } else {
      WithBindingsComeFromClause(outputs[..n], name);
      var i :| 0 <= i < n && outputs[..n][i] == NamedOutput(name, WithBindings(outputs[..n])[name]);
      assert outputs[i] == NamedOutput(name, WithBindings(outputs)[name]);
    }
  }

  /** A projected name is bound to the symbol of its last output in the clause. */
  lemma {:induction false} WithBindingsLastWins(outputs: seq<NamedOutput>, i: nat)
    requires i < |outputs|
    requires forall j :: i < j < |outputs| ==> outputs[j].name != outputs[i].name
    ensures outputs[i].name in WithBindings(outputs)
    ensures WithBindings(outputs)[outputs[i].name] == outputs[i].symbol
  {
    var n := |outputs| - 1;
    if i < n {
      WithBindingsLastWins(outputs[..n], i);
    }
  }

  /** If the clause exposes only generated symbols, so do the bindings after it. */
  lemma WithKeepsBindingsGenerated(outputs: seq<NamedOutput>, table: seq<Symbol>)
    requires forall i :: 0 <= i < |outputs| ==> Generated(table, outputs[i].symbol)
    ensures BindingsGenerated(WithBindings(outputs), table)
  {
    var m := WithBindings(outputs);
    forall n | n in m
      ensures Generated(table, m[n])
    {
      WithBindingsComeFromClause(outputs, n);
    }
  }

  /**
   * Walks the syntax tree and assigns symbols to variables; the walk itself
   * is not part of this model, only the scope it keeps and the operations on it.
   */
  class SymbolGenerator {
    /** The table this pass fills; shared by reference with the caller. */
    const symbolTable: SymbolTable
    var scope: Scope

    ghost predicate Valid()
      reads this, symbolTable
    {
      && symbolTable.Valid()
      && FlagsConsistent(scope)
      && BindingsGenerated(scope.symbols, symbolTable.symbols)
    }

    constructor (symbolTable: SymbolTable)
      requires symbolTable.Valid()
      ensures Valid()
      ensures this.symbolTable == symbolTable && scope == InitialScope
    {
      this.symbolTable := symbolTable;
      scope := InitialScope;
    }

    /** Whether `name` is bound in the current scope. */
    function HasSymbol(name: string): (bound: bool)
      reads this
      ensures bound <==> name in scope.symbols
    {
      name in scope.symbols
    }

    /**
     * Returns a freshly generated symbol and binds `name` to it, replacing
     * any earlier binding of `name`; the context flags are untouched.
     */
    method CreateSymbol(name: string, typ: SymbolType := SymbolType.Any) returns (s: Symbol)
      requires Valid()
      modifies this, symbolTable
      ensures Valid()
      ensures Binding(scope.symbols, s) == CreateBinding(old(scope.symbols), old(|symbolTable.symbols|), name, typ)
      ensures scope == old(scope).(symbols := scope.symbols)
      ensures symbolTable.symbols == old(symbolTable.symbols) + [s]
      ensures forall t :: t in old(symbolTable.symbols) ==> t != s
      ensures HasSymbol(name)
    {
      CreateKeepsBindingsGenerated(scope.symbols, symbolTable.symbols, name, typ);
      s := symbolTable.CreateSymbol(name, typ);
      scope := scope.(symbols := scope.symbols[name := s]);
    }

    /**
     * Returns the symbol bound to `name` if its type is compatible with
     * `typ`, fails with a type mismatch (binding nothing) if it is not, and
     * otherwise creates and binds a fresh symbol as CreateSymbol does.
     */
    method GetOrCreateSymbol(name: string, typ: SymbolType := SymbolType.Any) returns (r: Result<Symbol, SemanticError>)
      requires Valid()
      modifies this, symbolTable
      ensures Valid()
      ensures match GetOrCreateBinding(old(scope.symbols), old(|symbolTable.symbols|), name, typ)
              case Ok(b) => r == Ok(b.symbol) && scope == old(scope).(symbols := b.symbols)
              case Err(e) => r == Err(e) && scope == old(scope)
      ensures symbolTable.symbols ==
              if r.Ok? && old(name !in scope.symbols) then old(symbolTable.symbols) + [r.value]
              else old(symbolTable.symbols)
      ensures r.Ok? ==> HasSymbol(name) && scope.symbols[name] == r.value
      ensures r.Err? ==> old(HasSymbol(name))
    {
      if name in scope.symbols {
        var existing := scope.symbols[name];
        if Compatible(existing.typ, typ) {
          r := Ok(existing);
        } else {
          r := Err(TypeMismatch(name, existing.typ, typ));
        }
      } else {
        var s := CreateSymbol(name, typ);
        r := Ok(s);
      }
    }

    /**
     * Drops every binding and binds exactly the names the WITH clause
     * projects; the context flags are untouched.
     */
    method SetWithSymbols(with: WithClause)
      requires Valid()
      requires forall i :: 0 <= i < |with.outputs| ==> Generated(symbolTable.symbols, with.outputs[i].symbol)
      modifies this
      ensures Valid()
      ensures scope == old(scope).(symbols := WithBindings(with.outputs))
      ensures forall n :: HasSymbol(n) <==> n in OutputNames(with.outputs)
    {
      scope := scope.(symbols := map[]);
      var i := 0;
      while i < |with.outputs|
        invariant 0 <= i <= |with.outputs|
        invariant scope == old(scope).(symbols := scope.symbols)
        invariant scope.symbols == WithBindings(with.outputs[..i])
      {
        var output := with.outputs[i];
        assert with.outputs[..i + 1][..i] == with.outputs[..i];
        assert WithBindings(with.outputs[..i + 1]) == WithBindings(with.outputs[..i])[output.name := output.symbol];
        scope := scope.(symbols := scope.symbols[output.name := output.symbol]);
        i := i + 1;
      }
      assert with.outputs[..i] == with.outputs;
      WithKeepsBindingsGenerated(with.outputs, symbolTable.symbols);
    }
  }

  /**
   * Resolving the pattern (a)-[b]->(c) of a CREATE binds three distinct
   * symbols typed Vertex, Edge and Vertex, and a later reference to `a` as a
   * vertex yields the same symbol again.
   */
  method ResolveCreatePattern() returns (a: Symbol, b: Symbol, c: Symbol, again: Result<Symbol, SemanticError>)
    ensures a.typ == Vertex && b.typ == Edge && c.typ == Vertex
    ensures a.position != b.position && b.position != c.position && a.position != c.position
    ensures again == Ok(a)
  {
    var table := new SymbolTable();
    var generator := new SymbolGenerator(table);
    var ra := generator.GetOrCreateSymbol("a", Vertex);
    assert ra == Ok(Symbol("a", 0, Vertex));
    a := ra.value;
    assert generator.scope.symbols["a"] == a && |table.symbols| == 1;
    var rb := generator.GetOrCreateSymbol("b", Edge);
    assert rb == Ok(Symbol("b", 1, Edge));
    b := rb.value;
    assert generator.scope.symbols["a"] == a && |table.symbols| == 2;
    var rc := generator.GetOrCreateSymbol("c", Vertex);
    assert rc == Ok(Symbol("c", 2, Vertex));
    c := rc.value;
    assert generator.scope.symbols["a"] == a;
    again := generator.GetOrCreateSymbol("a", Vertex);
  }

  /** Declaring `a` as a vertex and then requiring it as an edge fails with a type mismatch naming `a`. */
  method VertexReusedAsEdgeConflicts() returns (r: Result<Symbol, SemanticError>)
    ensures r == Err(TypeMismatch("a", Vertex, Edge))
  {
    var table := new SymbolTable();
    var generator := new SymbolGenerator(table);
    var first := generator.GetOrCreateSymbol("a", Vertex);
    assert generator.scope.symbols["a"] == Symbol("a", 0, Vertex);
    r := generator.GetOrCreateSymbol("a", Edge);
  }

  /** Both creation operations default the requested type to Any. */
  method DefaultTypeIsAny() returns (created: Symbol, resolved: Result<Symbol, SemanticError>)
    ensures created.typ == SymbolType.Any
    ensures resolved.Ok? && resolved.value.typ == SymbolType.Any
  {
    var table := new SymbolTable();
    var generator := new SymbolGenerator(table);
    created := generator.CreateSymbol("n");
    resolved := generator.GetOrCreateSymbol("m");
  }
}
