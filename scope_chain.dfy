/** A parent-linked chain of tables seen as the sequence of its maps,
    innermost first: the shape shared by SymbolTable::lookup and
    Memory::get, which look locally and then delegate to the enclosing table. */
module ScopeChain {
  import opened Wrappers

  /** Some table of the chain binds `name`. */
  predicate BoundIn<V>(maps: seq<map<string, V>>, name: string) {
    exists i :: 0 <= i < |maps| && name in maps[i]
  }

  /** The binding of `name` in the innermost table that has it. */
  function Nearest<V>(maps: seq<map<string, V>>, name: string): (r: Option<V>)
    ensures r.Some? ==> exists i :: 0 <= i < |maps| && name in maps[i] && r.value == maps[i][name]
                                  && forall j :: 0 <= j < i ==> name !in maps[j]
  {
    if |maps| == 0 then None
    else if name in maps[0] then Some(maps[0][name])
    else Nearest(maps[1..], name)
  }

  /** The walk finds nothing exactly when no table binds the name. */
  lemma {:induction false} NearestNoneIffUnbound<V>(maps: seq<map<string, V>>, name: string)
    ensures Nearest(maps, name).None? <==> !BoundIn(maps, name)
  {
    if |maps| > 0 && name !in maps[0] {
      NearestNoneIffUnbound(maps[1..], name);
      if BoundIn(maps, name) {
        var i :| 0 <= i < |maps| && name in maps[i];
        assert name in maps[1..][i - 1];
      }
      if BoundIn(maps[1..], name) {
        var i :| 0 <= i < |maps[1..]| && name in maps[1..][i];
        assert name in maps[i + 1];
      }
    }
  }

  /** The innermost table holding the name wins: tables nearer the start of
      the chain shadow the ones behind them. */
  lemma {:induction false} NearestShadows<V>(maps: seq<map<string, V>>, name: string, i: nat)
    requires i < |maps| && name in maps[i]
    requires forall j :: 0 <= j < i ==> name !in maps[j]
    ensures Nearest(maps, name) == Some(maps[i][name])
  {
    if i > 0 {
      assert name !in maps[0];
      NearestShadows(maps[1..], name, i - 1);
    }
  }

  /** Binding a name in the innermost table makes the walk find exactly that
      binding, whatever the outer tables hold. */
  lemma BindInnermost<V>(maps: seq<map<string, V>>, name: string, v: V)
    requires |maps| > 0
    ensures Nearest([maps[0][name := v]] + maps[1..], name) == Some(v)
  {
  }

  /** Binding a name in the innermost table leaves every other name's
      lookup as it was. */
  lemma BindOthersUnchanged<V>(maps: seq<map<string, V>>, name: string, v: V, other: string)
    requires |maps| > 0 && other != name
    ensures Nearest([maps[0][name := v]] + maps[1..], other) == Nearest(maps, other)
  {
    assert ([maps[0][name := v]] + maps[1..])[1..] == maps[1..];
  }
}
