/** Properties of the grammar in module Grammar that relate several rules:
    the shape of comma lists, empty statements, the declaration guard,
    operator precedence and associativity, and postfix chains. */
module GrammarFacts {
  import opened Wrappers
  import opened Tokens
  import opened Ast
  import opened Grammar

  // ---------------------------------------------------------------------
  // collection

  /** A reference description of a non-empty comma list: `items` are the
      expressions found one after another, separated by commas, and the
      `ending` token follows the last one; `next` is just past it. */
  predicate CommaSeparated(ts: seq<Token>, pos: nat, items: seq<Node>, next: nat, ending: TokenKind)
    decreases |items|, 0
  {
    pos <= |ts| && |items| > 0 && Expr(ts, pos).Ok? && Expr(ts, pos).value.value == items[0]
    && ListTail(ts, Expr(ts, pos).value.next, items[1..], next, ending)
  }

  /** What follows an item of a comma list at `p`: the `ending` token when
      no items remain, or a comma and the comma list of the rest. */
  predicate ListTail(ts: seq<Token>, p: nat, rest: seq<Node>, next: nat, ending: TokenKind)
    decreases |rest|, 1
  {
    (rest == [] && At(ts, p).kind == ending && next == p + 1)
    || (At(ts, p).kind == Comma && CommaSeparated(ts, p + 1, rest, next, ending))
  }

  lemma CollectionLoopComma(ts: seq<Token>, pos: nat, ending: TokenKind, acc: seq<Node>)
    requires pos <= |ts| && At(ts, pos).kind == Comma
    ensures Expr(ts, pos + 1).Err? ==> CollectionLoop(ts, pos, ending, acc).Err?
    ensures Expr(ts, pos + 1).Ok? ==>
              CollectionLoop(ts, pos, ending, acc)
              == CollectionLoop(ts, Expr(ts, pos + 1).value.next, ending, acc + [Expr(ts, pos + 1).value.value])
  {
  }

  lemma CollectionLoopEnd(ts: seq<Token>, pos: nat, ending: TokenKind, acc: seq<Node>)
    requires pos <= |ts| && At(ts, pos).kind != Comma && ending != EndOfFile
    ensures CollectionLoop(ts, pos, ending, acc).Ok? <==> At(ts, pos).kind == ending
    ensures CollectionLoop(ts, pos, ending, acc).Ok? ==> CollectionLoop(ts, pos, ending, acc) == Ok(Step(acc, pos + 1))
  {
  }

  /** Appending to `acc` gives back `acc` exactly when nothing is appended. */
  lemma AppendNothing(acc: seq<Node>, items: seq<Node>)
    ensures acc + items == acc <==> items == []
  {
    assert |acc + items| == |acc| + |items|;
  }

  /** A list that extends `acc + [v]` and equals `acc + items` starts its
      remainder with `v`. */
  lemma ExtendsWith(acc: seq<Node>, v: Node, items: seq<Node>, r: seq<Node>)
    requires acc + [v] <= r && r == acc + items
    ensures |items| > 0 && items[0] == v && r == acc + [v] + items[1..]
  {
    assert r[|acc|] == v;
    assert items[0] == r[|acc|];
    assert items == [items[0]] + items[1..];
  }

  /** A list that starts with `v` is `v` followed by the rest. */
  lemma Regroup(acc: seq<Node>, v: Node, items: seq<Node>)
    requires |items| > 0 && items[0] == v
    ensures acc + items == acc + [v] + items[1..]
  {
    assert items == [v] + items[1..];
  }

  /** A loop started with `acc + [v]` cannot produce `acc + items` unless
      `items` starts with `v`. */
  lemma LoopKeepsPrefix(ts: seq<Token>, p: nat, ending: TokenKind, acc: seq<Node>, v: Node, items: seq<Node>, next: nat)
    requires p <= |ts| && !(|items| > 0 && items[0] == v)
    ensures CollectionLoop(ts, p, ending, acc + [v]) != Ok(Step(acc + items, next))
  {
    var r := CollectionLoop(ts, p, ending, acc + [v]);
    if r.Ok? && r.value.value == acc + items {
      ExtendsWith(acc, v, items, r.value.value);
    }
  }

  lemma {:induction false} CollectionLoopItems(ts: seq<Token>, pos: nat, ending: TokenKind, acc: seq<Node>, items: seq<Node>, next: nat)
    requires pos <= |ts| && (ending == RParen || ending == RSquared)
    ensures CollectionLoop(ts, pos, ending, acc) == Ok(Step(acc + items, next)) <==> ListTail(ts, pos, items, next, ending)
    decreases |ts| - pos, 1
  {
    if At(ts, pos).kind == Comma {
      CollectionLoopItemsAfterComma(ts, pos, ending, acc, items, next);
    } else {
      CollectionLoopEnd(ts, pos, ending, acc);
      AppendNothing(acc, items);
    }
  }

  /** A successful collection has consumed its ending token. */
  lemma CollectionConsumesEnding(ts: seq<Token>, pos: nat, ending: TokenKind)
    requires pos <= |ts| && ending != EndOfFile && Collection(ts, pos, ending).Ok?
    ensures 0 < Collection(ts, pos, ending).value.next
    ensures At(ts, Collection(ts, pos, ending).value.next - 1).kind == ending
  {
    if At(ts, pos).kind != ending {
      var e := Expr(ts, pos).value;
      assert Collection(ts, pos, ending) == CollectionLoop(ts, e.next, ending, [e.value]);
    }
  }

  /** The comma case of CollectionLoopItems. */
  lemma {:induction false} CollectionLoopItemsAfterComma(ts: seq<Token>, pos: nat, ending: TokenKind, acc: seq<Node>, items: seq<Node>, next: nat)
    requires pos <= |ts| && (ending == RParen || ending == RSquared) && At(ts, pos).kind == Comma
    ensures CollectionLoop(ts, pos, ending, acc) == Ok(Step(acc + items, next)) <==>
              CommaSeparated(ts, pos + 1, items, next, ending)
    decreases |ts| - pos, 0
  {
    CollectionLoopComma(ts, pos, ending, acc);
    if Expr(ts, pos + 1).Ok? {
      var p := Expr(ts, pos + 1).value.next;
      var v := Expr(ts, pos + 1).value.value;
      if |items| > 0 && items[0] == v {
        Regroup(acc, v, items);
        CollectionLoopItems(ts, p, ending, acc + [v], items[1..], next);
      } else {
        LoopKeepsPrefix(ts, p, ending, acc, v, items, next);
      }
    }
  }

  lemma CollectionUnfold(ts: seq<Token>, pos: nat, ending: TokenKind)
    requires pos <= |ts| && At(ts, pos).kind != ending
    ensures Expr(ts, pos).Err? ==> Collection(ts, pos, ending).Err?
    ensures Expr(ts, pos).Ok? ==>
              Collection(ts, pos, ending)
              == CollectionLoop(ts, Expr(ts, pos).value.next, ending, [Expr(ts, pos).value.value])
  {
  }

  lemma CollectionItemsAfterFirst(ts: seq<Token>, pos: nat, ending: TokenKind, items: seq<Node>, next: nat)
    requires pos <= |ts| && (ending == RParen || ending == RSquared)
    requires At(ts, pos).kind != ending && Expr(ts, pos).Ok?
    ensures Collection(ts, pos, ending) == Ok(Step(items, next)) <==> CommaSeparated(ts, pos, items, next, ending)
  {
    CollectionUnfold(ts, pos, ending);
    var p := Expr(ts, pos).value.next;
    var v := Expr(ts, pos).value.value;
    assert Collection(ts, pos, ending) == CollectionLoop(ts, p, ending, [v]);
    FirstItemLoop(ts, pos, ending, items, next, v, p);
  }

  /** A comma list whose first expression is `v`, ending at `p`. */
  lemma CommaSeparatedFrom(ts: seq<Token>, pos: nat, items: seq<Node>, next: nat, ending: TokenKind, v: Node, p: nat)
    requires pos <= |ts| && Expr(ts, pos) == Ok(Step(v, p))
    ensures CommaSeparated(ts, pos, items, next, ending) <==>
              |items| > 0 && items[0] == v && ListTail(ts, p, items[1..], next, ending)
  {
  }

  /** The loop that collection starts after its first item reads the
      rest of a comma list. */
  lemma FirstItemLoop(ts: seq<Token>, pos: nat, ending: TokenKind, items: seq<Node>, next: nat, v: Node, p: nat)
    requires pos <= |ts| && (ending == RParen || ending == RSquared) && Expr(ts, pos) == Ok(Step(v, p))
    ensures CollectionLoop(ts, p, ending, [v]) == Ok(Step(items, next)) <==> CommaSeparated(ts, pos, items, next, ending)
  {
    CommaSeparatedFrom(ts, pos, items, next, ending, v, p);
    if |items| > 0 && items[0] == v {
      FirstItemMatches(ts, ending, items, next, v, p);
    } else {
      FirstItemDiffers(ts, ending, items, next, v, p);
    }
  }

  lemma FirstItemMatches(ts: seq<Token>, ending: TokenKind, items: seq<Node>, next: nat, v: Node, p: nat)
    requires p <= |ts| && (ending == RParen || ending == RSquared) && |items| > 0 && items[0] == v
    ensures CollectionLoop(ts, p, ending, [v]) == Ok(Step(items, next)) <==> ListTail(ts, p, items[1..], next, ending)
  {
    assert [v] + items[1..] == items;
    CollectionLoopItems(ts, p, ending, [v], items[1..], next);
  }

  lemma FirstItemDiffers(ts: seq<Token>, ending: TokenKind, items: seq<Node>, next: nat, v: Node, p: nat)
    requires p <= |ts| && !(|items| > 0 && items[0] == v)
    ensures CollectionLoop(ts, p, ending, [v]) != Ok(Step(items, next))
  {
    LoopKeepsPrefix(ts, p, ending, [], v, items, next);
    assert [] + [v] == [v] && [] + items == items;
  }

  /** collection reads exactly a comma list, or nothing when the ending
      token comes first. */
  lemma CollectionItems(ts: seq<Token>, pos: nat, ending: TokenKind, items: seq<Node>, next: nat)
    requires pos <= |ts| && (ending == RParen || ending == RSquared)
    ensures Collection(ts, pos, ending) == Ok(Step(items, next)) <==>
              (items == [] && At(ts, pos).kind == ending && next == pos + 1)
              || (At(ts, pos).kind != ending && CommaSeparated(ts, pos, items, next, ending))
  {
    if At(ts, pos).kind != ending {
      if Expr(ts, pos).Ok? {
        CollectionItemsAfterFirst(ts, pos, ending, items, next);
      } else {
        CollectionUnfold(ts, pos, ending);
      }
    }
  }

  // ---------------------------------------------------------------------
  // statement_list

  function Semicolons(n: nat): (r: seq<Token>) {
    seq(n, _ => Token(Semicolon, ";"))
  }

  function NoOperators(n: nat): (r: seq<Node>) {
    if n == 0 then [] else [NoOperator] + NoOperators(n - 1)
  }

  lemma StatementLoopStop(ts: seq<Token>, pos: nat, inFunc: bool, nodes: seq<Node>)
    requires pos <= |ts| && At(ts, pos).kind != Semicolon
    ensures StatementLoop(ts, pos, inFunc, nodes) == Ok(Step(nodes, pos))
  {
  }

  /** Every token from k on is a semicolon. */
  predicate SemicolonsFrom(ts: seq<Token>, k: nat)
    decreases |ts| - k
  {
    k >= |ts| || (ts[k].kind == Semicolon && SemicolonsFrom(ts, k + 1))
  }

  lemma {:induction false} SemicolonsAllFrom(ts: seq<Token>, k: nat)
    requires forall i :: k <= i < |ts| ==> ts[i].kind == Semicolon
    ensures SemicolonsFrom(ts, k)
    decreases |ts| - k
  {
    if k < |ts| {
      SemicolonsAllFrom(ts, k + 1);
    }
  }

  lemma SemicolonRunAt(ts: seq<Token>, k: nat)
    requires k < |ts| && SemicolonsFrom(ts, k)
    ensures At(ts, k).kind == Semicolon && !StartsStatement(At(ts, k + 1).kind)
    ensures SemicolonsFrom(ts, k + 1)
  {
    if k + 1 < |ts| {
      assert At(ts, k + 1) == ts[k + 1];
    }
  }

  lemma StatementListEmptyFirst(ts: seq<Token>, pos: nat, inFunc: bool)
    requires pos <= |ts| && !StartsStatement(At(ts, pos).kind)
    ensures StatementList(ts, pos, inFunc) == StatementLoop(ts, pos, inFunc, [NoOperator])
  {
  }

  /** A reference description of a statement list: `nodes` are the
      statements found one after another from `pos`, `seps` the positions
      of the semicolons between them, and the list stops at `next`, where no
      further semicolon follows. */
  predicate SemicolonSeparated(ts: seq<Token>, pos: nat, nodes: seq<Node>, seps: seq<nat>, next: nat, inFunc: bool)
    decreases |nodes|, 0
  {
    pos <= |ts| && |nodes| == |seps| + 1
    && Statement(ts, pos, inFunc).Ok? && Statement(ts, pos, inFunc).value.value == nodes[0]
    && StatementTail(ts, Statement(ts, pos, inFunc).value.next, nodes[1..], seps, next, inFunc)
  }

  /** What follows a statement at `p`: the end of the list when no
      statements remain, or a semicolon at `p` and the statements after it. */
  predicate StatementTail(ts: seq<Token>, p: nat, rest: seq<Node>, seps: seq<nat>, next: nat, inFunc: bool)
    decreases |rest|, 1
  {
    (rest == [] && seps == [] && At(ts, p).kind != Semicolon && next == p)
    || (rest != [] && |seps| > 0 && seps[0] == p && At(ts, p).kind == Semicolon
        && SemicolonSeparated(ts, p + 1, rest, seps[1..], next, inFunc))
  }

  lemma StatementLoopSemicolon(ts: seq<Token>, pos: nat, inFunc: bool, acc: seq<Node>, v: Node, e: nat)
    requires pos <= |ts| && At(ts, pos).kind == Semicolon && Statement(ts, pos + 1, inFunc) == Ok(Step(v, e))
    ensures StatementLoop(ts, pos, inFunc, acc) == StatementLoop(ts, e, inFunc, acc + [v])
  {
  }

  /** The semicolon case of StatementTail, taken apart. */
  lemma TailAfterSemicolon(ts: seq<Token>, p: nat, rest: seq<Node>, seps: seq<nat>, next: nat, inFunc: bool) returns (e: nat)
    requires StatementTail(ts, p, rest, seps, next, inFunc) && rest != []
    ensures p < |ts| && At(ts, p).kind == Semicolon
    ensures Statement(ts, p + 1, inFunc) == Ok(Step(rest[0], e)) && e <= |ts|
    ensures StatementTail(ts, e, rest[1..], seps[1..], next, inFunc)
  {
    e := Statement(ts, p + 1, inFunc).value.next;
  }

  lemma ConsParts(v: Node, rest: seq<Node>, p: nat, more: seq<nat>)
    ensures ([v] + rest)[0] == v && ([v] + rest)[1..] == rest
    ensures ([p] + more)[0] == p && ([p] + more)[1..] == more
  {
  }

  /** The semicolon case of StatementTail, put together. */
  lemma TailOfSemicolon(ts: seq<Token>, p: nat, v: Node, e: nat, rest: seq<Node>, more: seq<nat>, next: nat, inFunc: bool)
    requires p < |ts| && At(ts, p).kind == Semicolon && Statement(ts, p + 1, inFunc) == Ok(Step(v, e))
    requires StatementTail(ts, e, rest, more, next, inFunc)
    ensures StatementTail(ts, p, [v] + rest, [p] + more, next, inFunc)
  {
    ConsParts(v, rest, p, more);
    assert SemicolonSeparated(ts, p + 1, [v] + rest, more, next, inFunc);
  }

  /** One semicolon of the run: an empty statement before the rest. */
  lemma SemicolonTailStep(ts: seq<Token>, k: nat, inFunc: bool, more: seq<nat>)
    requires k < |ts| && At(ts, k).kind == Semicolon && !StartsStatement(At(ts, k + 1).kind)
    requires StatementTail(ts, k + 1, NoOperators(|ts| - (k + 1)), more, |ts|, inFunc)
    ensures StatementTail(ts, k, NoOperators(|ts| - k), [k] + more, |ts|, inFunc)
  {
    TailOfSemicolon(ts, k, NoOperator, k + 1, NoOperators(|ts| - (k + 1)), more, |ts|, inFunc);
  }

  /** A run of semicolons up to the end of the input: one empty
      statement behind each. */
  lemma {:induction false} SemicolonRunTail(ts: seq<Token>, k: nat, inFunc: bool) returns (seps: seq<nat>)
    requires k <= |ts| && SemicolonsFrom(ts, k)
    ensures StatementTail(ts, k, NoOperators(|ts| - k), seps, |ts|, inFunc)
    decreases |ts| - k
  {
    if k < |ts| {
      SemicolonRunAt(ts, k);
      var more := SemicolonRunTail(ts, k + 1, inFunc);
      SemicolonTailStep(ts, k, inFunc, more);
      seps := [k] + more;
    } else {
      seps := [];
    }
  }

  /** From position k on, a run of semicolons up to the end of the input
      adds one empty statement per semicolon. */
  lemma SemicolonLoop(ts: seq<Token>, k: nat, inFunc: bool, nodes: seq<Node>)
    requires k <= |ts| && SemicolonsFrom(ts, k)
    ensures StatementLoop(ts, k, inFunc, nodes) == Ok(Step(nodes + NoOperators(|ts| - k), |ts|))
  {
    var seps := SemicolonRunTail(ts, k, inFunc);
    SeparatorsMakeLoop(ts, k, inFunc, nodes, NoOperators(|ts| - k), seps, |ts|);
  }

  /** A loop that succeeds has found its statements behind semicolons. */
  lemma {:induction false} LoopFindsSeparators(ts: seq<Token>, pos: nat, inFunc: bool, acc: seq<Node>, items: seq<Node>, next: nat) returns (seps: seq<nat>)
    requires pos <= |ts| && StatementLoop(ts, pos, inFunc, acc) == Ok(Step(acc + items, next))
    ensures StatementTail(ts, pos, items, seps, next, inFunc)
    decreases |ts| - pos
  {
    if At(ts, pos).kind == Semicolon {
      var s := Statement(ts, pos + 1, inFunc).value;
      StatementLoopSemicolon(ts, pos, inFunc, acc, s.value, s.next);
      ExtendsWith(acc, s.value, items, acc + items);
      var more := LoopFindsSeparators(ts, s.next, inFunc, acc + [s.value], items[1..], next);
      TailOfSemicolon(ts, pos, s.value, s.next, items[1..], more, next, inFunc);
      seps := [pos] + more;
    } else {
      StatementLoopStop(ts, pos, inFunc, acc);
      AppendNothing(acc, items);
      seps := [];
    }
  }

  /** Statements behind semicolons are what the loop finds. */
  lemma {:induction false} SeparatorsMakeLoop(ts: seq<Token>, pos: nat, inFunc: bool, acc: seq<Node>, items: seq<Node>, seps: seq<nat>, next: nat)
    requires pos <= |ts| && StatementTail(ts, pos, items, seps, next, inFunc)
    ensures StatementLoop(ts, pos, inFunc, acc) == Ok(Step(acc + items, next))
    decreases |items|
  {
    if items == [] {
      StatementLoopStop(ts, pos, inFunc, acc);
      assert acc + items == acc;
    } else {
      var e := TailAfterSemicolon(ts, pos, items, seps, next, inFunc);
      StatementLoopSemicolon(ts, pos, inFunc, acc, items[0], e);
      SeparatorsMakeLoop(ts, e, inFunc, acc + [items[0]], items[1..], seps[1..], next);
      Regroup(acc, items[0], items);
    }
  }

  lemma StatementListFirst(ts: seq<Token>, pos: nat, inFunc: bool, v: Node, e: nat)
    requires pos <= |ts| && Statement(ts, pos, inFunc) == Ok(Step(v, e))
    ensures StatementList(ts, pos, inFunc) == StatementLoop(ts, e, inFunc, [v])
  {
  }

  lemma StatementListFails(ts: seq<Token>, pos: nat, inFunc: bool)
    requires pos <= |ts| && Statement(ts, pos, inFunc).Err?
    ensures StatementList(ts, pos, inFunc).Err?
  {
  }

  /** SemicolonSeparated, taken apart. */
  lemma SeparatedApart(ts: seq<Token>, pos: nat, nodes: seq<Node>, seps: seq<nat>, next: nat, inFunc: bool) returns (e: nat)
    requires SemicolonSeparated(ts, pos, nodes, seps, next, inFunc)
    ensures pos <= |ts| && |nodes| >= 1 && Statement(ts, pos, inFunc) == Ok(Step(nodes[0], e))
    ensures StatementTail(ts, e, nodes[1..], seps, next, inFunc)
  {
    e := Statement(ts, pos, inFunc).value.next;
  }

  /** SemicolonSeparated, put together. */
  lemma SeparatedTogether(ts: seq<Token>, pos: nat, v: Node, e: nat, rest: seq<Node>, seps: seq<nat>, next: nat, inFunc: bool)
    requires pos <= |ts| && Statement(ts, pos, inFunc) == Ok(Step(v, e))
    requires StatementTail(ts, e, rest, seps, next, inFunc)
    ensures SemicolonSeparated(ts, pos, [v] + rest, seps, next, inFunc)
  {
    assert ([v] + rest)[1..] == rest;
    assert StatementTail(ts, e, rest, seps, next, inFunc) ==> |rest| == |seps|;
  }

  /** A statement list that succeeds is semicolon-separated. */
  lemma ListFindsSeparators(ts: seq<Token>, pos: nat, inFunc: bool, nodes: seq<Node>, next: nat)
    requires pos <= |ts| && StatementList(ts, pos, inFunc) == Ok(Step(nodes, next))
    ensures exists seps :: SemicolonSeparated(ts, pos, nodes, seps, next, inFunc)
  {
    if Statement(ts, pos, inFunc).Err? {
      StatementListFails(ts, pos, inFunc);
    } else {
      var v := Statement(ts, pos, inFunc).value.value;
      var e := Statement(ts, pos, inFunc).value.next;
      StatementListFirst(ts, pos, inFunc, v, e);
      assert [] + [v] == [v] && [] + nodes == nodes;
      ExtendsWith([], v, nodes, nodes);
      var seps := LoopFindsSeparators(ts, e, inFunc, [v], nodes[1..], next);
      SeparatedTogether(ts, pos, v, e, nodes[1..], seps, next, inFunc);
    }
  }

  /** A semicolon-separated list is what statement_list finds. */
  lemma SeparatorsMakeList(ts: seq<Token>, pos: nat, inFunc: bool, nodes: seq<Node>, seps: seq<nat>, next: nat)
    requires SemicolonSeparated(ts, pos, nodes, seps, next, inFunc)
    ensures StatementList(ts, pos, inFunc) == Ok(Step(nodes, next))
  {
    var e := SeparatedApart(ts, pos, nodes, seps, next, inFunc);
    StatementListFirst(ts, pos, inFunc, nodes[0], e);
    SeparatorsMakeLoop(ts, e, inFunc, [nodes[0]], nodes[1..], seps, next);
    assert [nodes[0]] + nodes[1..] == nodes;
  }

  /** statement_list finds exactly the statements separated by semicolons:
      one statement, then a statement after each semicolon, up to the first
      token after a statement that is not a semicolon. */
  lemma StatementListSeparated(ts: seq<Token>, pos: nat, inFunc: bool, nodes: seq<Node>, next: nat)
    requires pos <= |ts|
    ensures StatementList(ts, pos, inFunc) == Ok(Step(nodes, next)) <==>
              exists seps :: SemicolonSeparated(ts, pos, nodes, seps, next, inFunc)
  {
    if StatementList(ts, pos, inFunc) == Ok(Step(nodes, next)) {
      ListFindsSeparators(ts, pos, inFunc, nodes, next);
    }
    if exists seps :: SemicolonSeparated(ts, pos, nodes, seps, next, inFunc) {
      var seps :| SemicolonSeparated(ts, pos, nodes, seps, next, inFunc);
      SeparatorsMakeList(ts, pos, inFunc, nodes, seps, next);
    }
  }

  /** The separators are semicolons, in increasing order, between where the
      list starts and where it stops: a list of n statements has consumed
      n - 1 semicolons of its own. */
  /** The last statement of a semicolon-separated list. */
  lemma SeparatedEnds(ts: seq<Token>, pos: nat, nodes: seq<Node>, seps: seq<nat>, next: nat, inFunc: bool)
    requires SemicolonSeparated(ts, pos, nodes, seps, next, inFunc) && seps == []
    ensures |nodes| == 1 && pos <= next && At(ts, next).kind != Semicolon
  {
    var e := SeparatedApart(ts, pos, nodes, seps, next, inFunc);
  }

  /** The first separator of a semicolon-separated list, and the list behind it. */
  lemma SeparatedSplits(ts: seq<Token>, pos: nat, nodes: seq<Node>, seps: seq<nat>, next: nat, inFunc: bool) returns (e: nat)
    requires SemicolonSeparated(ts, pos, nodes, seps, next, inFunc) && seps != []
    ensures pos <= e && seps[0] == e && At(ts, e).kind == Semicolon
    ensures SemicolonSeparated(ts, e + 1, nodes[1..], seps[1..], next, inFunc)
  {
    e := SeparatedApart(ts, pos, nodes, seps, next, inFunc);
  }

  /** Semicolon positions in [pos, next), in increasing order. */
  ghost predicate OrderedSemicolons(ts: seq<Token>, pos: nat, seps: seq<nat>, next: nat)
  {
    (forall i :: 0 <= i < |seps| ==> pos <= seps[i] < next && At(ts, seps[i]).kind == Semicolon)
    && (forall i, j :: 0 <= i < j < |seps| ==> seps[i] < seps[j])
  }

  lemma PrependSemicolon(ts: seq<Token>, pos: nat, seps: seq<nat>, next: nat)
    requires seps != [] && pos <= seps[0] < next && At(ts, seps[0]).kind == Semicolon
    requires OrderedSemicolons(ts, seps[0] + 1, seps[1..], next)
    ensures OrderedSemicolons(ts, pos, seps, next)
  {
    var more := seps[1..];
    assert forall i :: 0 < i < |seps| ==> seps[i] == more[i - 1];
  }

  lemma {:induction false} SeparatorsOrdered(ts: seq<Token>, pos: nat, nodes: seq<Node>, seps: seq<nat>, next: nat, inFunc: bool)
    requires SemicolonSeparated(ts, pos, nodes, seps, next, inFunc)
    ensures pos <= next && At(ts, next).kind != Semicolon && OrderedSemicolons(ts, pos, seps, next)
    decreases |nodes|
  {
    if seps == [] {
      SeparatedEnds(ts, pos, nodes, seps, next, inFunc);
    } else {
      var e := SeparatedSplits(ts, pos, nodes, seps, next, inFunc);
      SeparatorsOrdered(ts, e + 1, nodes[1..], seps[1..], next, inFunc);
      PrependSemicolon(ts, pos, seps, next);
    }
  }

  /** What a semicolon-separated list says about its separators: one
      fewer than the statements, each a semicolon between the start and
      the end, in increasing order. */
  lemma SeparatorsAreSemicolons(ts: seq<Token>, pos: nat, nodes: seq<Node>, seps: seq<nat>, next: nat, inFunc: bool)
    requires SemicolonSeparated(ts, pos, nodes, seps, next, inFunc)
    ensures |nodes| == |seps| + 1 && pos <= next && At(ts, next).kind != Semicolon
    ensures forall i :: 0 <= i < |seps| ==> pos <= seps[i] < next && At(ts, seps[i]).kind == Semicolon
    ensures forall i, j :: 0 <= i < j < |seps| ==> seps[i] < seps[j]
  {
    SeparatorsOrdered(ts, pos, nodes, seps, next, inFunc);
  }



  lemma ParseAtEnd(ts: seq<Token>, pos: nat, inFunc: bool, nodes: seq<Node>, next: nat)
    requires pos <= |ts| && StatementList(ts, pos, inFunc) == Ok(Step(nodes, next))
    requires At(ts, next).kind == EndOfFile
    ensures Parse(ts, pos, inFunc) == Ok(Compound(inFunc, nodes))
  {
  }

  /** Every `;`-separated segment is one statement, and an empty segment is
      an empty statement: a program of n semicolons has n + 1 of them. */
  /** A run of semicolons parses as one empty statement more than it has
      semicolons. */
  lemma SemicolonsList(n: nat, inFunc: bool)
    ensures StatementList(Semicolons(n), 0, inFunc) == Ok(Step(NoOperators(n + 1), n))
  {
    var ts := Semicolons(n);
    assert !StartsStatement(At(ts, 0).kind) by {
      if n > 0 {
        assert At(ts, 0) == ts[0];
      }
    }
    StatementListEmptyFirst(ts, 0, inFunc);
    SemicolonsAllFrom(ts, 0);
    SemicolonLoop(ts, 0, inFunc, [NoOperator]);
  }

  lemma EmptySegmentsAreNoOperators(n: nat, inFunc: bool)
    ensures Parse(Semicolons(n), 0, inFunc) == Ok(Compound(inFunc, NoOperators(n + 1)))
  {
    SemicolonsList(n, inFunc);
    ParseAtEnd(Semicolons(n), 0, inFunc, NoOperators(n + 1), n);
  }


  // ---------------------------------------------------------------------
  // variable_declaration

  /** A comma after as many initialisers as names is a syntax error at the
      token after that comma. */
  lemma SurplusInitializerRejected(ts: seq<Token>, pos: nat, names: seq<Token>, assigns: seq<Node>)
    requires pos <= |ts| && |assigns| == |names| && At(ts, pos).kind == Comma
    ensures Initializers(ts, pos, names, assigns) == Err(SyntaxError(At(ts, pos + 1)))
  {
    assert Next(ts, pos) == pos + 1;
  }

  /** As written, the same input reaches `variables.at(i)` with i equal to
      the number of names, which throws instead. */
  lemma SurplusInitializerAsWritten(ts: seq<Token>, pos: nat, names: seq<Token>, assigns: seq<Node>)
    requires pos <= |ts| && |assigns| == |names| && At(ts, pos).kind == Comma
    ensures InitializersAsWritten(ts, pos, names, assigns) == Err(OutOfRange)
    ensures InitializersAsWritten(ts, pos, names, assigns) != Initializers(ts, pos, names, assigns)
  {
    SurplusInitializerRejected(ts, pos, names, assigns);
  }

  /** With no surplus, the as-written loop and the corrected one agree. */
  lemma {:induction false} InitializersAgreeWithinNames(ts: seq<Token>, pos: nat, names: seq<Token>, assigns: seq<Node>)
    requires pos <= |ts|
    requires Initializers(ts, pos, names, assigns).Ok?
    ensures InitializersAsWritten(ts, pos, names, assigns) == Initializers(ts, pos, names, assigns)
    decreases |ts| - pos
  {
    if At(ts, pos).kind == Comma {
      var p := Next(ts, pos);
      var i := |assigns|;
      assert i < |names|;
      var right := Expr(ts, p);
      assert right.Ok?;
      var assigns' := assigns + [NewAssign(NewVariable(names[i]), AssignToken, right.value.value)];
      InitializersAgreeWithinNames(ts, right.value.next, names, assigns');
    }
  }

  // ---------------------------------------------------------------------
  // One step of each expression rule

  lemma CastOfPlainFactor(ts: seq<Token>, pos: nat, a: Node, p1: nat)
    requires pos <= |ts| && Factor(ts, pos) == Ok(Step(a, p1)) && At(ts, p1).kind != AsKw
    ensures CastFactor(ts, pos) == Ok(Step(a, p1))
  {
  }

  lemma TermFrom(ts: seq<Token>, pos: nat, a: Node, p1: nat)
    requires pos <= |ts| && CastFactor(ts, pos) == Ok(Step(a, p1))
    ensures Term(ts, pos) == TermLoop(ts, p1, a)
  {
  }

  lemma TermLoopStep(ts: seq<Token>, p: nat, node: Node, b: Node, p2: nat)
    requires p <= |ts| && IsMultiplicative(At(ts, p).kind) && Factor(ts, p + 1) == Ok(Step(b, p2))
    ensures TermLoop(ts, p, node) == TermLoop(ts, p2, BinaryOperator(node, At(ts, p), b))
  {
  }

  lemma TermLoopStop(ts: seq<Token>, p: nat, node: Node)
    requires p <= |ts| && !IsMultiplicative(At(ts, p).kind)
    ensures TermLoop(ts, p, node) == Ok(Step(node, p))
  {
  }

  lemma SubAddFrom(ts: seq<Token>, pos: nat, a: Node, p1: nat)
    requires pos <= |ts| && Term(ts, pos) == Ok(Step(a, p1))
    ensures SubAdd(ts, pos) == SubAddLoop(ts, p1, a)
  {
  }

  lemma SubAddLoopStep(ts: seq<Token>, p: nat, node: Node, b: Node, p2: nat)
    requires p <= |ts| && IsAdditive(At(ts, p).kind) && Term(ts, p + 1) == Ok(Step(b, p2))
    ensures SubAddLoop(ts, p, node) == SubAddLoop(ts, p2, BinaryOperator(node, At(ts, p), b))
  {
  }

  lemma SubAddLoopStop(ts: seq<Token>, p: nat, node: Node)
    requires p <= |ts| && !IsAdditive(At(ts, p).kind)
    ensures SubAddLoop(ts, p, node) == Ok(Step(node, p))
  {
  }

  /** A last additive operator and its term end the loop. */
  lemma SubAddLoopLast(ts: seq<Token>, p: nat, node: Node, b: Node, p2: nat)
    requires p <= |ts| && IsAdditive(At(ts, p).kind) && Term(ts, p + 1) == Ok(Step(b, p2))
    requires !IsAdditive(At(ts, p2).kind)
    ensures SubAddLoop(ts, p, node) == Ok(Step(BinaryOperator(node, At(ts, p), b), p2))
  {
    SubAddLoopStep(ts, p, node, b, p2);
    SubAddLoopStop(ts, p2, BinaryOperator(node, At(ts, p), b));
  }

  lemma EqNotEqPlain(ts: seq<Token>, pos: nat, a: Node, p1: nat)
    requires pos <= |ts| && SubAdd(ts, pos) == Ok(Step(a, p1)) && !IsCompareOp(At(ts, p1).kind)
    ensures EqNotEq(ts, pos) == Ok(Step(a, p1))
  {
  }

  lemma EqNotEqCompares(ts: seq<Token>, pos: nat, a: Node, p1: nat, cs: seq<Node>, ops: seq<Token>, p2: nat)
    requires pos <= |ts| && SubAdd(ts, pos) == Ok(Step(a, p1)) && IsCompareOp(At(ts, p1).kind)
    requires CompareLoop(ts, p1, [a], []) == Ok(Step((cs, ops), p2))
    ensures EqNotEq(ts, pos) == Ok(Step(Compare(cs, ops), p2))
  {
  }

  lemma CompareLoopStep(ts: seq<Token>, p: nat, cs: seq<Node>, ops: seq<Token>, b: Node, p2: nat)
    requires p <= |ts| && IsCompareOp(At(ts, p).kind) && Expr(ts, p + 1) == Ok(Step(b, p2))
    ensures CompareLoop(ts, p, cs, ops) == CompareLoop(ts, p2, cs + [b], ops + [At(ts, p)])
  {
  }

  lemma CompareLoopStop(ts: seq<Token>, p: nat, cs: seq<Node>, ops: seq<Token>)
    requires p <= |ts| && !IsCompareOp(At(ts, p).kind)
    ensures CompareLoop(ts, p, cs, ops) == Ok(Step((cs, ops), p))
  {
  }

  lemma ExprFrom(ts: seq<Token>, pos: nat, a: Node, p1: nat)
    requires pos <= |ts| && EqNotEq(ts, pos) == Ok(Step(a, p1))
    ensures Expr(ts, pos) == ExprLoop(ts, p1, a)
  {
  }

  lemma ExprLoopStep(ts: seq<Token>, p: nat, node: Node, b: Node, p2: nat)
    requires p <= |ts| && IsConnective(At(ts, p).kind) && Expr(ts, p + 1) == Ok(Step(b, p2))
    ensures ExprLoop(ts, p, node) == ExprLoop(ts, p2, DoubleCondition(node, At(ts, p), b))
  {
  }

  lemma ExprLoopStop(ts: seq<Token>, p: nat, node: Node)
    requires p <= |ts| && !IsConnective(At(ts, p).kind)
    ensures ExprLoop(ts, p, node) == Ok(Step(node, p))
  {
  }

  // ---------------------------------------------------------------------
  // Precedence and associativity

  /** No operator of the `term` or `sub_add` levels and no `as`. */
  predicate EndsArithmetic(k: TokenKind) {
    !IsMultiplicative(k) && !IsAdditive(k) && k != AsKw
  }

  /** A factor followed by neither `as` nor a multiplicative operator is a
      whole term. */
  lemma TermOfFactor(ts: seq<Token>, pos: nat, a: Node, p1: nat)
    requires pos <= |ts| && Factor(ts, pos) == Ok(Step(a, p1))
    requires At(ts, p1).kind != AsKw && !IsMultiplicative(At(ts, p1).kind)
    ensures Term(ts, pos) == Ok(Step(a, p1))
  {
    CastOfPlainFactor(ts, pos, a, p1);
    TermFrom(ts, pos, a, p1);
    TermLoopStop(ts, p1, a);
  }

  /** `b * c` followed by no further operator is one term. */
  lemma TermOfProduct(ts: seq<Token>, pos: nat, b: Node, c: Node, p2: nat, p3: nat)
    requires pos <= |ts|
    requires Factor(ts, pos) == Ok(Step(b, p2)) && At(ts, p2).kind == Mult
    requires Factor(ts, p2 + 1) == Ok(Step(c, p3)) && EndsArithmetic(At(ts, p3).kind)
    ensures Term(ts, pos) == Ok(Step(BinaryOperator(b, At(ts, p2), c), p3))
  {
    CastOfPlainFactor(ts, pos, b, p2);
    TermFrom(ts, pos, b, p2);
    TermLoopStep(ts, p2, b, c, p3);
    TermLoopStop(ts, p3, BinaryOperator(b, At(ts, p2), c));
  }

  /** A factor, `+` and a last term make one sum. */
  lemma SumOfFactorAndTerm(ts: seq<Token>, pos: nat, a: Node, p1: nat, t: Node, p3: nat)
    requires pos <= |ts| && Factor(ts, pos) == Ok(Step(a, p1)) && At(ts, p1).kind == Plus
    requires Term(ts, p1 + 1) == Ok(Step(t, p3)) && !IsAdditive(At(ts, p3).kind)
    ensures SubAdd(ts, pos) == Ok(Step(BinaryOperator(a, At(ts, p1), t), p3))
  {
    TermOfFactor(ts, pos, a, p1);
    SubAddFrom(ts, pos, a, p1);
    SubAddLoopLast(ts, p1, a, t, p3);
  }

  /** `a + b * c` groups as `a + (b * c)`. */
  lemma ProductBindsTighterOnRight(ts: seq<Token>, pos: nat, a: Node, b: Node, c: Node, p1: nat, p2: nat, p3: nat)
    requires pos <= |ts|
    requires Factor(ts, pos) == Ok(Step(a, p1)) && At(ts, p1).kind == Plus
    requires Factor(ts, p1 + 1) == Ok(Step(b, p2)) && At(ts, p2).kind == Mult
    requires Factor(ts, p2 + 1) == Ok(Step(c, p3)) && EndsArithmetic(At(ts, p3).kind)
    ensures SubAdd(ts, pos) == Ok(Step(BinaryOperator(a, At(ts, p1), BinaryOperator(b, At(ts, p2), c)), p3))
  {
    var bc := BinaryOperator(b, At(ts, p2), c);
    var q := p1 + 1;
    assert !IsAdditive(At(ts, p3).kind);
    TermOfProduct(ts, q, b, c, p2, p3);
    SumOfFactorAndTerm(ts, pos, a, p1, bc, p3);
  }

  /** `a * b + c` groups as `(a * b) + c`. */
  lemma ProductBindsTighterOnLeft(ts: seq<Token>, pos: nat, a: Node, b: Node, c: Node, p1: nat, p2: nat, p3: nat)
    requires pos <= |ts|
    requires Factor(ts, pos) == Ok(Step(a, p1)) && At(ts, p1).kind == Mult
    requires Factor(ts, p1 + 1) == Ok(Step(b, p2)) && At(ts, p2).kind == Plus
    requires Term(ts, p2 + 1) == Ok(Step(c, p3)) && !IsAdditive(At(ts, p3).kind)
    ensures SubAdd(ts, pos) == Ok(Step(BinaryOperator(BinaryOperator(a, At(ts, p1), b), At(ts, p2), c), p3))
  {
    CastOfPlainFactor(ts, pos, a, p1);
    TermFrom(ts, pos, a, p1);
    var ab := BinaryOperator(a, At(ts, p1), b);
    TermLoopStep(ts, p1, a, b, p2);
    TermLoopStop(ts, p2, ab);
    SubAddFrom(ts, pos, ab, p2);
    SubAddLoopStep(ts, p2, ab, c, p3);
    SubAddLoopStop(ts, p3, BinaryOperator(ab, At(ts, p2), c));
  }

  /** `a - b - c` groups as `(a - b) - c`. */
  lemma SumsAssociateLeft(ts: seq<Token>, pos: nat, a: Node, b: Node, c: Node, p1: nat, p2: nat, p3: nat)
    requires pos <= |ts|
    requires Term(ts, pos) == Ok(Step(a, p1)) && IsAdditive(At(ts, p1).kind)
    requires Term(ts, p1 + 1) == Ok(Step(b, p2)) && IsAdditive(At(ts, p2).kind)
    requires Term(ts, p2 + 1) == Ok(Step(c, p3)) && !IsAdditive(At(ts, p3).kind)
    ensures SubAdd(ts, pos) == Ok(Step(BinaryOperator(BinaryOperator(a, At(ts, p1), b), At(ts, p2), c), p3))
  {
    var ab := BinaryOperator(a, At(ts, p1), b);
    SubAddFrom(ts, pos, a, p1);
    SubAddLoopStep(ts, p1, a, b, p2);
    SubAddLoopStep(ts, p2, ab, c, p3);
    SubAddLoopStop(ts, p3, BinaryOperator(ab, At(ts, p2), c));
  }

  /** `a / b % c` groups as `(a / b) % c`. */
  lemma ProductsAssociateLeft(ts: seq<Token>, pos: nat, a: Node, b: Node, c: Node, p1: nat, p2: nat, p3: nat)
    requires pos <= |ts|
    requires CastFactor(ts, pos) == Ok(Step(a, p1)) && IsMultiplicative(At(ts, p1).kind)
    requires Factor(ts, p1 + 1) == Ok(Step(b, p2)) && IsMultiplicative(At(ts, p2).kind)
    requires Factor(ts, p2 + 1) == Ok(Step(c, p3)) && !IsMultiplicative(At(ts, p3).kind)
    ensures Term(ts, pos) == Ok(Step(BinaryOperator(BinaryOperator(a, At(ts, p1), b), At(ts, p2), c), p3))
  {
    var ab := BinaryOperator(a, At(ts, p1), b);
    TermFrom(ts, pos, a, p1);
    TermLoopStep(ts, p1, a, b, p2);
    TermLoopStep(ts, p2, ab, c, p3);
    TermLoopStop(ts, p3, BinaryOperator(ab, At(ts, p2), c));
  }

  /** A comparison followed by no connective is a whole expression. */
  lemma ExprSingle(ts: seq<Token>, pos: nat, a: Node, p1: nat)
    requires pos <= |ts| && EqNotEq(ts, pos) == Ok(Step(a, p1)) && !IsConnective(At(ts, p1).kind)
    ensures Expr(ts, pos) == Ok(Step(a, p1))
  {
    ExprFrom(ts, pos, a, p1);
    ExprLoopStop(ts, p1, a);
  }

  /** A comparison, a connective and a whole expression after it. */
  lemma ExprPair(ts: seq<Token>, pos: nat, a: Node, p1: nat, b: Node, p2: nat)
    requires pos <= |ts| && EqNotEq(ts, pos) == Ok(Step(a, p1)) && IsConnective(At(ts, p1).kind)
    requires Expr(ts, p1 + 1) == Ok(Step(b, p2)) && !IsConnective(At(ts, p2).kind)
    ensures Expr(ts, pos) == Ok(Step(DoubleCondition(a, At(ts, p1), b), p2))
  {
    ExprFrom(ts, pos, a, p1);
    ExprLoopStep(ts, p1, a, b, p2);
    ExprLoopStop(ts, p2, DoubleCondition(a, At(ts, p1), b));
  }

  /** Two comparisons joined by one connective. */
  lemma ExprPairOfSingles(ts: seq<Token>, pos: nat, b: Node, p2: nat, c: Node, p3: nat)
    requires pos <= |ts| && EqNotEq(ts, pos) == Ok(Step(b, p2)) && IsConnective(At(ts, p2).kind)
    requires EqNotEq(ts, p2 + 1) == Ok(Step(c, p3)) && !IsConnective(At(ts, p3).kind)
    ensures Expr(ts, pos) == Ok(Step(DoubleCondition(b, At(ts, p2), c), p3))
  {
    ExprSingle(ts, p2 + 1, c, p3);
    ExprPair(ts, pos, b, p2, c, p3);
  }

  /** `a and b or c` groups as `a and (b or c)`: the connectives nest to
      the right, unlike the arithmetic operators. */
  lemma ConnectivesNestRight(ts: seq<Token>, pos: nat, a: Node, b: Node, c: Node, p1: nat, p2: nat, p3: nat)
    requires pos <= |ts|
    requires EqNotEq(ts, pos) == Ok(Step(a, p1)) && IsConnective(At(ts, p1).kind)
    requires EqNotEq(ts, p1 + 1) == Ok(Step(b, p2)) && IsConnective(At(ts, p2).kind)
    requires EqNotEq(ts, p2 + 1) == Ok(Step(c, p3)) && !IsConnective(At(ts, p3).kind)
    ensures Expr(ts, pos) == Ok(Step(DoubleCondition(a, At(ts, p1), DoubleCondition(b, At(ts, p2), c)), p3))
  {
    ExprPairOfSingles(ts, p1 + 1, b, p2, c, p3);
    ExprPair(ts, pos, a, p1, DoubleCondition(b, At(ts, p2), c), p3);
  }

  lemma TwoComparables(a: Node, b: Node, op: Token)
    ensures [a] + [b] == [a, b] && [] + [op] == [op]
  {
  }

  /** The comparison loop over exactly one operator. */
  lemma CompareOnce(ts: seq<Token>, p1: nat, a: Node, b: Node, p2: nat)
    requires p1 <= |ts| && IsCompareOp(At(ts, p1).kind)
    requires Expr(ts, p1 + 1) == Ok(Step(b, p2)) && !IsCompareOp(At(ts, p2).kind)
    ensures CompareLoop(ts, p1, [a], []) == Ok(Step(([a, b], [At(ts, p1)]), p2))
  {
    CompareLoopStep(ts, p1, [a], [], b, p2);
    TwoComparables(a, b, At(ts, p1));
    CompareLoopStop(ts, p2, [a, b], [At(ts, p1)]);
  }

  /** One comparison operator between a sum and a whole expression. */
  lemma CompareOne(ts: seq<Token>, pos: nat, a: Node, p1: nat, b: Node, p2: nat)
    requires pos <= |ts| && SubAdd(ts, pos) == Ok(Step(a, p1)) && IsCompareOp(At(ts, p1).kind)
    requires Expr(ts, p1 + 1) == Ok(Step(b, p2)) && !IsCompareOp(At(ts, p2).kind)
    ensures EqNotEq(ts, pos) == Ok(Step(Compare([a, b], [At(ts, p1)]), p2))
  {
    CompareOnce(ts, p1, a, b, p2);
    EqNotEqCompares(ts, pos, a, p1, [a, b], [At(ts, p1)], p2);
  }

  /** A sum followed by neither a comparison nor a connective is a whole
      expression. */
  lemma ExprOfSum(ts: seq<Token>, pos: nat, c: Node, p3: nat)
    requires pos <= |ts| && SubAdd(ts, pos) == Ok(Step(c, p3))
    requires !IsCompareOp(At(ts, p3).kind) && !IsConnective(At(ts, p3).kind)
    ensures Expr(ts, pos) == Ok(Step(c, p3))
  {
    EqNotEqPlain(ts, pos, c, p3);
    ExprSingle(ts, pos, c, p3);
  }

  /** `b is c`, followed by neither a comparison nor a connective, is a
      whole expression. */
  lemma ExprOfComparison(ts: seq<Token>, pos: nat, b: Node, p2: nat, c: Node, p3: nat)
    requires pos <= |ts| && SubAdd(ts, pos) == Ok(Step(b, p2)) && IsCompareOp(At(ts, p2).kind)
    requires SubAdd(ts, p2 + 1) == Ok(Step(c, p3))
    requires !IsCompareOp(At(ts, p3).kind) && !IsConnective(At(ts, p3).kind)
    ensures Expr(ts, pos) == Ok(Step(Compare([b, c], [At(ts, p2)]), p3))
  {
    ExprOfSum(ts, p2 + 1, c, p3);
    CompareOne(ts, pos, b, p2, c, p3);
    ExprSingle(ts, pos, Compare([b, c], [At(ts, p2)]), p3);
  }

  /** `a is b isnt c` becomes a Compare of `a` and the Compare of `b` and
      `c`: each Compare has two comparables and one operator. */
  lemma ComparisonsNestRight(ts: seq<Token>, pos: nat, a: Node, b: Node, c: Node, p1: nat, p2: nat, p3: nat)
    requires pos <= |ts|
    requires SubAdd(ts, pos) == Ok(Step(a, p1)) && IsCompareOp(At(ts, p1).kind)
    requires SubAdd(ts, p1 + 1) == Ok(Step(b, p2)) && IsCompareOp(At(ts, p2).kind)
    requires SubAdd(ts, p2 + 1) == Ok(Step(c, p3))
    requires !IsCompareOp(At(ts, p3).kind) && !IsConnective(At(ts, p3).kind)
    ensures EqNotEq(ts, pos) == Ok(Step(Compare([a, Compare([b, c], [At(ts, p2)])], [At(ts, p1)]), p3))
  {
    ExprOfComparison(ts, p1 + 1, b, p2, c, p3);
    CompareOne(ts, pos, a, p1, Compare([b, c], [At(ts, p2)]), p3);
  }

  // ---------------------------------------------------------------------
  // Postfix chains

  /** `x[i][j]` is the access of `j` in the access of `i` in `x`. */
  lemma IndexingNestsLeft(ts: seq<Token>, pos: nat, base: Node, i: Node, j: Node, p1: nat, p2: nat)
    requires pos <= |ts|
    requires Subscript(ts, pos) == Ok(Step(i, p1))
    requires Subscript(ts, p1) == Ok(Step(j, p2)) && At(ts, p2).kind != LSquared
    ensures ArrayAccessChain(ts, pos, base) == Ok(Step(ArrayAccess(ArrayAccess(base, i), j), p2))
  {
    assert At(ts, p1).kind == LSquared;
    var inner := ArrayAccess(base, i);
    assert AccessLoop(ts, p2, ArrayAccess(inner, j)) == Ok(Step(ArrayAccess(inner, j), p2));
  }

  lemma CallChainFrom(ts: seq<Token>, pos: nat, callee: Node, xs: seq<Node>, p1: nat)
    requires pos <= |ts| && At(ts, pos).kind == LParen
    requires Collection(ts, pos + 1, RParen) == Ok(Step(xs, p1))
    ensures CallChain(ts, pos, callee) == CallLoop(ts, p1, FunctionCall(callee, xs))
  {
  }

  lemma CallLoopStep(ts: seq<Token>, p: nat, node: Node, ys: seq<Node>, p2: nat)
    requires p <= |ts| && At(ts, p).kind == LParen
    requires Collection(ts, p + 1, RParen) == Ok(Step(ys, p2))
    ensures CallLoop(ts, p, node) == CallLoop(ts, p2, FunctionCall(node, ys))
  {
  }

  /** `f(x)(y)` calls the result of `f(x)` with `y`. */
  lemma CallsNestLeft(ts: seq<Token>, pos: nat, callee: Node, xs: seq<Node>, ys: seq<Node>, p1: nat, p2: nat)
    requires pos <= |ts| && At(ts, pos).kind == LParen
    requires Collection(ts, pos + 1, RParen) == Ok(Step(xs, p1)) && At(ts, p1).kind == LParen
    requires Collection(ts, p1 + 1, RParen) == Ok(Step(ys, p2)) && At(ts, p2).kind != LParen
    ensures CallChain(ts, pos, callee) == Ok(Step(FunctionCall(FunctionCall(callee, xs), ys), p2))
  {
    var inner := FunctionCall(callee, xs);
    CallChainFrom(ts, pos, callee, xs, p1);
    CallLoopStep(ts, p1, inner, ys, p2);
    assert CallLoop(ts, p2, FunctionCall(inner, ys)) == Ok(Step(FunctionCall(inner, ys), p2));
  }

  /** `o:a:b` dives into `b` of the dive into `a` of `o`. */
  lemma DivesNestLeft(ts: seq<Token>, pos: nat, parent: Node)
    requires pos + 4 <= |ts|
    requires ts[pos].kind == Colon && ts[pos + 1].kind == Identifier
    requires ts[pos + 2].kind == Colon && ts[pos + 3].kind == Identifier
    requires At(ts, pos + 4).kind != Colon
    ensures DiveChain(ts, pos, parent)
            == Ok(Step(ObjectDive(ObjectDive(parent, ts[pos], ts[pos + 1]), ts[pos + 2], ts[pos + 3]), pos + 4))
  {
    var inner := ObjectDive(parent, ts[pos], ts[pos + 1]);
    assert At(ts, pos + 2) == ts[pos + 2];
    assert DiveChain(ts, pos + 2, inner)
           == Ok(Step(ObjectDive(inner, ts[pos + 2], ts[pos + 3]), pos + 4));
  }
}
