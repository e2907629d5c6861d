/** The chained memory of the later evaluator: one block per scope, each
    linked to its enclosing block (interpreter/Memory.cpp). */
module MemoryChain {
  import opened Wrappers
  import opened ScopeChain
  import KeyOrder
  import MemoryFlat

  /** The MemoryValue subclasses `str` distinguishes. Array and function
      payloads are not part of this model; OtherValue stands for any other
      subclass, for which `str` prints no value text. */
  datatype StoredValue =
    | SingularValue(value: string, kind: MemoryFlat.Type)
    | ArrayValue
    | FunctionValue
    | OtherValue

  /** The value text of one `str` line. */
  function Rendered(v: StoredValue): (text: string)
    ensures v.SingularValue? ==> text == v.value
    ensures v.ArrayValue? ==> text == "array"
    ensures v.FunctionValue? ==> text == "function"
    ensures v.OtherValue? ==> text == ""
  {
    match v
    case SingularValue(value, _) => value
    case ArrayValue => "array"
    case FunctionValue => "function"
    case OtherValue => ""
  }

  /** One line of `str`'s output: the name and the rendered value. */
  function BindingLine(name: string, v: StoredValue): (r: string)
  {
    "Name: " + name + ", Value: " + Rendered(v) + "\n"
  }

  /** The text `str` emits for the given keys, in the given order. */
  function BindingLines(values: map<string, StoredValue>, keys: seq<string>): (r: string)
    requires forall k :: k in keys ==> k in values
  {
    if keys == [] then ""
    else
      var k := keys[|keys| - 1];
      BindingLines(values, keys[..|keys| - 1]) + BindingLine(k, values[k])
  }

  /** The loop of `str`: appends one line per key, in the order given. */
  method RenderBindingLines(values: map<string, StoredValue>, keys: seq<string>) returns (text: string)
    requires forall k :: k in keys ==> k in values
    ensures text == BindingLines(values, keys)
  {
    text := "";
    var i := 0;
    while i < |keys|
      invariant 0 <= i <= |keys|
      invariant text == BindingLines(values, keys[..i])
    {
      assert keys[..i + 1][..i] == keys[..i];
      text := text + BindingLine(keys[i], values[keys[i]]);
      i := i + 1;
    }
    assert keys[..|keys|] == keys;
  }

  class Memory {
    const memoryLevel: int
    const enclosingMemoryBlock: Memory?
    var values: map<string, StoredValue>

    /** Number of blocks behind this one; bounds the walk up the chain. */
    ghost const depth: nat
    /** This block and every block it encloses. */
    ghost const Repr: set<Memory>

    /** The chain behind this block is finite and acyclic. */
    ghost predicate Linked()
      decreases depth
    {
      && this in Repr
      && (enclosingMemoryBlock == null ==> depth == 0 && Repr == {this})
      && (enclosingMemoryBlock != null ==>
            && depth == enclosingMemoryBlock.depth + 1
            && this !in enclosingMemoryBlock.Repr
            && Repr == {this} + enclosingMemoryBlock.Repr
            && enclosingMemoryBlock.Linked())
    }

    /** The bindings of the chain, this block first. */
    ghost function Maps(): (ms: seq<map<string, StoredValue>>)
      requires Linked()
      reads Repr
      ensures |ms| == depth + 1 && ms[0] == values
      decreases depth
    {
      [values] + (if enclosingMemoryBlock == null then [] else enclosingMemoryBlock.Maps())
    }

    /** Memory::Memory: records the level and the enclosing block; the new
        block is empty. */
    constructor (memoryLevel: int, enclosingMemoryBlock: Memory?)
      requires enclosingMemoryBlock != null ==> enclosingMemoryBlock.Linked()
      ensures Linked()
      ensures this.memoryLevel == memoryLevel && this.enclosingMemoryBlock == enclosingMemoryBlock
      ensures values == map[]
      ensures Repr == {this} + (if enclosingMemoryBlock == null then {} else enclosingMemoryBlock.Repr)
    {
      this.memoryLevel := memoryLevel;
      this.enclosingMemoryBlock := enclosingMemoryBlock;
      values := map[];
      depth := if enclosingMemoryBlock == null then 0 else enclosingMemoryBlock.depth + 1;
      Repr := {this} + (if enclosingMemoryBlock == null then {} else enclosingMemoryBlock.Repr);
    }

    /** Memory::put: binds or overwrites `name` in this block only. */
    method Put(name: string, val: StoredValue)
      requires Linked()
      modifies this
      ensures values == old(values)[name := val]
      ensures Get(name) == Some(val)
      ensures forall n :: n != name ==> Get(n) == old(Get(n))
      ensures enclosingMemoryBlock != null ==> enclosingMemoryBlock.Maps() == old(enclosingMemoryBlock.Maps())
    {
      values := values[name := val];
      forall n | n != name ensures Get(n) == old(Get(n)) {
        BindOthersUnchanged(old(Maps()), name, val, n);
      }
    }

    /** Memory::get: the local binding if there is one, otherwise whatever
        the enclosing block returns; None (NULL) when no block binds it. */
    function Get(name: string): (r: Option<StoredValue>)
      requires Linked()
      reads Repr
      ensures r == Nearest(Maps(), name)
      decreases depth
    {
      if name in values then Some(values[name])
      else if enclosingMemoryBlock != null then enclosingMemoryBlock.Get(name)
      else None
    }

    /** Memory::str: a header, then one "Name: n, Value: ..." line per local
        binding in ascending key order. */
    method Str() returns (result: string)
      ensures forall k :: k in KeyOrder.Ordered(values.Keys) ==> k in values
      ensures result == "Symbols: \n" + BindingLines(values, KeyOrder.Ordered(values.Keys))
    {
      var keys := KeyOrder.OrderedKeys(values.Keys);
      KeyOrder.OrderedIsSortedEnumeration(values.Keys);
      var lines := RenderBindingLines(values, keys);
      result := "Symbols: \n" + lines;
    }
  }
}
