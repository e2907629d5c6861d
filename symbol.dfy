/** Symbols and the parent-linked symbol tables of the static name check
    (interpreter/Symbol.cpp, interpreter/Symbol.h). */
module Symbols {
  import opened Wrappers
  import opened ScopeChain
  import KeyOrder

  /** A symbol carries only its name. */
  datatype Symbol = Symbol(name: string)

  /** The text `str` emits for the given keys of a table, in the given order:
      each symbol's name followed by a newline. */
  function NameLines(symbols: map<string, Symbol>, keys: seq<string>): (r: string)
    requires forall k :: k in keys ==> k in symbols
  {
    if keys == [] then ""
    else NameLines(symbols, keys[..|keys| - 1]) + symbols[keys[|keys| - 1]].name + "\n"
  }

  /** The loop of `str`: appends each symbol's name and a newline, in the
      order of `keys`. */
  method RenderNameLines(symbols: map<string, Symbol>, keys: seq<string>) returns (text: string)
    requires forall k :: k in keys ==> k in symbols
    ensures text == NameLines(symbols, keys)
  {
    text := "";
    var i := 0;
    while i < |keys|
      invariant 0 <= i <= |keys|
      invariant text == NameLines(symbols, keys[..i])
    {
      assert keys[..i + 1][..i] == keys[..i];
      text := text + symbols[keys[i]].name + "\n";
      i := i + 1;
    }
    assert keys[..|keys|] == keys;
  }

  class SymbolTable {
    const scopeLevel: int
    const enclosingScope: SymbolTable?
    var symbols: map<string, Symbol>

    /** Number of tables behind this one; bounds the walk up the chain. */
    ghost const depth: nat
    /** This table and every table it encloses. */
    ghost const Repr: set<SymbolTable>

    /** The chain behind this table is finite and acyclic. */
    ghost predicate Linked()
      decreases depth
    {
      && this in Repr
      && (enclosingScope == null ==> depth == 0 && Repr == {this})
      && (enclosingScope != null ==>
            && depth == enclosingScope.depth + 1
            && this !in enclosingScope.Repr
            && Repr == {this} + enclosingScope.Repr
            && enclosingScope.Linked())
    }

    /** The maps of the chain, this table first. */
    ghost function Maps(): (ms: seq<map<string, Symbol>>)
      requires Linked()
      reads Repr
      ensures |ms| == depth + 1 && ms[0] == symbols
      decreases depth
    {
      [symbols] + (if enclosingScope == null then [] else enclosingScope.Maps())
    }

    /** SymbolTable::SymbolTable: records the level and the enclosing table;
        the new table is empty. */
    constructor (scopeLevel: int, enclosingScope: SymbolTable?)
      requires enclosingScope != null ==> enclosingScope.Linked()
      ensures Linked()
      ensures this.scopeLevel == scopeLevel && this.enclosingScope == enclosingScope
      ensures symbols == map[]
      ensures Repr == {this} + (if enclosingScope == null then {} else enclosingScope.Repr)
    {
      this.scopeLevel := scopeLevel;
      this.enclosingScope := enclosingScope;
      symbols := map[];
      depth := if enclosingScope == null then 0 else enclosingScope.depth + 1;
      Repr := {this} + (if enclosingScope == null then {} else enclosingScope.Repr);
    }

    /** SymbolTable::define: binds (or rebinds) the symbol's name in this
        table only. */
    method Define(symbol: Symbol)
      requires Linked()
      modifies this
      ensures symbols == old(symbols)[symbol.name := symbol]
      ensures Lookup(symbol.name, false) == Some(symbol)
      ensures Lookup(symbol.name, true) == Some(symbol)
      ensures enclosingScope != null ==> enclosingScope.Maps() == old(enclosingScope.Maps())
      ensures Maps() == [symbols] + old(Maps())[1..]
    {
      symbols := symbols[symbol.name := symbol];
    }

    /** SymbolTable::lookup, with the `local_only` flag its callers pass:
        `false` walks from this table outwards and returns the nearest
        binding, `true` consults this table alone. None stands for NULL. */
    function Lookup(name: string, localOnly: bool): (r: Option<Symbol>)
      requires Linked()
      reads Repr
      ensures !localOnly ==> r == Nearest(Maps(), name)
      ensures localOnly ==> r == (if name in symbols then Some(symbols[name]) else None)
      decreases depth
    {
      if name in symbols then Some(symbols[name])
      else if !localOnly && enclosingScope != null then enclosingScope.Lookup(name, false)
      else None
    }

    /** SymbolTable::str: a header, then each symbol's name on its own line,
        in ascending key order. */
    method Str() returns (result: string)
      ensures forall k :: k in KeyOrder.Ordered(symbols.Keys) ==> k in symbols
      ensures result == "Symbols: \n" + NameLines(symbols, KeyOrder.Ordered(symbols.Keys))
    {
      var keys := KeyOrder.OrderedKeys(symbols.Keys);
      KeyOrder.OrderedIsSortedEnumeration(symbols.Keys);
      var lines := RenderNameLines(symbols, keys);
      result := "Symbols: \n" + lines;
    }
  }
}
