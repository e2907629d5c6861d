/** The flat, level-less memory of the first evaluator and the value it
    stores (interpreter/Memory.h). */
module MemoryFlat {
  import opened Wrappers
  import KeyOrder

  /** The `Type` tag of a stored value. */
  datatype Type = FloatType | StringType | BooleanType | NoneType

  /** MemoryValue: the value's text and its type tag, exactly as given to
      the constructor (numbers and booleans are kept as text). */
  datatype MemoryValue = MemoryValue(value: string, kind: Type)

  /** One line of `str`'s output: the name and the value's text. */
  function ValueLine(name: string, v: MemoryValue): (r: string)
  {
    "Name: " + name + ", Value: " + v.value + "\n"
  }

  /** The text `str` emits for the given keys, in the given order. */
  function ValueLines(values: map<string, Option<MemoryValue>>, keys: seq<string>): (r: string)
    requires forall k :: k in keys ==> k in values && values[k].Some?
  {
    if keys == [] then ""
    else
      var k := keys[|keys| - 1];
      ValueLines(values, keys[..|keys| - 1]) + ValueLine(k, values[k].value)
  }

  /** The loop of `str`: appends one line per key, in the order given. */
  method RenderValueLines(values: map<string, Option<MemoryValue>>, keys: seq<string>) returns (text: string)
    requires forall k :: k in keys ==> k in values && values[k].Some?
    ensures text == ValueLines(values, keys)
  {
    text := "";
    var i := 0;
    while i < |keys|
      invariant 0 <= i <= |keys|
      invariant text == ValueLines(values, keys[..i])
    {
      assert keys[..i + 1][..i] == keys[..i];
      text := text + ValueLine(keys[i], values[keys[i]].value);
      i := i + 1;
    }
    assert keys[..|keys|] == keys;
  }

  /** Memory: one map from names to (possibly NULL, here None) values. */
  class Memory {
    var values: map<string, Option<MemoryValue>>

    constructor ()
      ensures values == map[]
    {
      values := map[];
    }

    /** Memory::put: binds or overwrites `name`; no other binding changes. */
    method Put(name: string, val: Option<MemoryValue>)
      modifies this
      ensures values == old(values)[name := val]
      ensures Get(name) == val
      ensures forall n :: n != name ==> Get(n) == old(Get(n))
    {
      values := values[name := val];
    }

    /** Memory::get: the bound value, or None (NULL) when the name is not
        bound; there is no enclosing memory to consult. */
    function Get(name: string): (r: Option<MemoryValue>)
      reads this
      ensures r.Some? ==> name in values && values[name] == r
      ensures name !in values ==> r.None?
    {
      if name in values then values[name] else None
    }

    /** Memory::str: a header, then one "Name: n, Value: text" line per
        binding in ascending key order. Every stored pointer is dereferenced,
        so no binding may hold NULL. */
    method Str() returns (result: string)
      requires forall k :: k in values ==> values[k].Some?
      ensures forall k :: k in KeyOrder.Ordered(values.Keys) ==> k in values && values[k].Some?
      ensures result == "Symbols: \n" + ValueLines(values, KeyOrder.Ordered(values.Keys))
    {
      var keys := KeyOrder.OrderedKeys(values.Keys);
      KeyOrder.OrderedIsSortedEnumeration(values.Keys);
      var lines := RenderValueLines(values, keys);
      result := "Symbols: \n" + lines;
    }
  }
}
