/** The iteration order of a std::map<std::string, _>: ascending keys under
    std::string's lexicographic comparison. Used by every `str` method. */
module KeyOrder {

  /** std::string operator<: lexicographic order on characters, a proper
      prefix coming first. */
  predicate Less(a: string, b: string)
    decreases |a|
  {
    if |a| == 0 then |b| > 0
    else if |b| == 0 then false
    else if a[0] != b[0] then a[0] < b[0]
    else Less(a[1..], b[1..])
  }

  lemma {:induction false} LessIrreflexive(a: string)
    ensures !Less(a, a)
    decreases |a|
  {
    if |a| > 0 { LessIrreflexive(a[1..]); }
  }

  lemma {:induction false} LessTransitive(a: string, b: string, c: string)
    requires Less(a, b) && Less(b, c)
    ensures Less(a, c)
    decreases |a|
  {
    if |a| > 0 && a[0] == b[0] && b[0] == c[0] {
      LessTransitive(a[1..], b[1..], c[1..]);
    }
  }

  lemma {:induction false} LessTotal(a: string, b: string)
    requires a != b
    ensures Less(a, b) || Less(b, a)
    decreases |a|
  {
    if |a| > 0 && |b| > 0 && a[0] == b[0] {
      assert a == [a[0]] + a[1..] && b == [b[0]] + b[1..];
      LessTotal(a[1..], b[1..]);
    }
  }

  lemma {:induction false} LessAsymmetric(a: string, b: string)
    requires Less(a, b)
    ensures !Less(b, a)
  {
    if Less(b, a) {
      LessTransitive(a, b, a);
      LessIrreflexive(a);
    }
  }

  /** k is the first key of s in map order. */
  predicate IsLeast(k: string, s: set<string>) {
    k in s && forall x :: x in s && x != k ==> Less(k, x)
  }

  lemma {:induction false} LeastExists(s: set<string>)
    requires s != {}
    ensures exists k :: IsLeast(k, s)
    decreases s
  {
    var x :| x in s;
    if s == {x} {
      assert IsLeast(x, s);
    } else {
      LeastExists(s - {x});
      var k :| IsLeast(k, s - {x});
      if Less(k, x) {
        forall y | y in s && y != k ensures Less(k, y) {
          if y == x { } else { assert y in s - {x}; }
        }
        assert IsLeast(k, s);
      } else {
        LessTotal(k, x);
        forall y | y in s && y != x ensures Less(x, y) {
          if y != k { LessTransitive(x, k, y); }
        }
        assert IsLeast(x, s);
      }
    }
  }

  lemma LeastUnique(k1: string, k2: string, s: set<string>)
    requires IsLeast(k1, s) && IsLeast(k2, s)
    ensures k1 == k2
  {
    if k1 != k2 {
      LessAsymmetric(k1, k2);
    }
  }

  /** The keys of s in the order a std::map iterator visits them. */
  ghost function Ordered(s: set<string>): (r: seq<string>)
    decreases s
  {
    if s == {} then []
    else
      LeastExists(s);
      var k :| IsLeast(k, s);
      [k] + Ordered(s - {k})
  }

  lemma OrderedUnfold(s: set<string>, k: string)
    requires IsLeast(k, s)
    ensures Ordered(s) == [k] + Ordered(s - {k})
  {
    LeastExists(s);
    var k' :| IsLeast(k', s) && Ordered(s) == [k'] + Ordered(s - {k'});
    LeastUnique(k, k', s);
  }

  ghost predicate StrictlyAscending(ks: seq<string>) {
    forall i, j :: 0 <= i < j < |ks| ==> Less(ks[i], ks[j])
  }

  /** The map order lists every key exactly once, in strictly ascending order. */
  lemma {:induction false} OrderedIsSortedEnumeration(s: set<string>)
    ensures StrictlyAscending(Ordered(s))
    ensures |Ordered(s)| == |s|
    ensures forall k :: k in Ordered(s) <==> k in s
    decreases s
  {
    if s != {} {
      LeastExists(s);
      var k :| IsLeast(k, s);
      OrderedUnfold(s, k);
      OrderedIsSortedEnumeration(s - {k});
      var rest := Ordered(s - {k});
      assert Ordered(s) == [k] + rest;
      forall i, j | 0 <= i < j < |Ordered(s)|
        ensures Less(Ordered(s)[i], Ordered(s)[j])
      {
        if i == 0 {
          assert Ordered(s)[j] == rest[j - 1];
          assert rest[j - 1] in s - {k};
        } else {
          assert Ordered(s)[i] == rest[i - 1] && Ordered(s)[j] == rest[j - 1];
        }
      }
    }
  }

  /** The key sequence a std::map iterator produces, computed by repeatedly
      taking the least remaining key. */
  method OrderedKeys(s: set<string>) returns (ks: seq<string>)
    ensures ks == Ordered(s)
  {
    ks := [];
    var rest := s;
    while rest != {}
      invariant ks + Ordered(rest) == Ordered(s)
      decreases rest
    {
      LeastExists(rest);
      var k :| k in rest && IsLeast(k, rest);
      OrderedUnfold(rest, k);
      ks, rest := ks + [k], rest - {k};
    }
  }
}
