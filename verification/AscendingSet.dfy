// A finite set of numbers listed in ascending order.
module AscendingSet {
  lemma {:induction false} LeastExists(s: set<nat>)
    requires s != {}
    ensures exists m :: IsLeast(m, s)
  {
    var a :| a in s;
    var rest := s - {a};
    assert s == rest + {a};
    if rest == {} {
      assert IsLeast(a, s);
    } else {
      LeastExists(rest);
      var b :| IsLeast(b, rest);
      var m := if a < b then a else b;
      LeastOfTwo(s, rest, a, b, m);
    }
  }

  predicate IsLeast(m: nat, s: set<nat>) { m in s && forall x | x in s :: m <= x }

  lemma LeastOfTwo(s: set<nat>, rest: set<nat>, a: nat, b: nat, m: nat)
    requires s == rest + {a} && IsLeast(b, rest) && m == if a < b then a else b
    ensures IsLeast(m, s)
  {
  }

  function Least(s: set<nat>): (m: nat)
    requires s != {}
    ensures IsLeast(m, s)
  {
    LeastExists(s);
    var m :| IsLeast(m, s);
    m
  }

  // The order in which a BTreeSet lists its elements.
  function Ascending(s: set<nat>): (r: seq<nat>)
    ensures |r| == |s|
  {
    if s == {} then [] else [Least(s)] + Ascending(s - {Least(s)})
  }

  lemma {:induction false} AscendingMembers(s: set<nat>)
    ensures forall x :: x in Ascending(s) <==> x in s
  {
    if s != {} {
      var m := Least(s);
      AscendingMembers(s - {m});
      assert s == {m} + (s - {m});
    }
  }

  lemma {:induction false} AscendingIncreases(s: set<nat>)
    ensures forall i, j | 0 <= i < j < |s| :: Ascending(s)[i] < Ascending(s)[j]
  {
    if s != {} {
      var m := Least(s);
      var rest := Ascending(s - {m});
      AscendingIncreases(s - {m});
      AscendingMembers(s - {m});
      forall k | 0 <= k < |rest| ensures m < rest[k] {
        assert rest[k] in rest;
      }
    }
  }
}
