/** Paths in a directed graph given by its edges. */
module Reachability {
  ghost predicate Path<T(!new)>(edge: (T, T) -> bool, p: seq<T>) {
    |p| > 0 && forall i :: 0 <= i < |p| - 1 ==> edge(p[i], p[i + 1])
  }

  ghost predicate Reaches<T(!new)>(edge: (T, T) -> bool, a: T, b: T) {
    exists p :: Path(edge, p) && p[0] == a && p[|p| - 1] == b
  }

  lemma ReachesItself<T(!new)>(edge: (T, T) -> bool, a: T)
    ensures Reaches(edge, a, a)
  {
    assert Path(edge, [a]) && [a][0] == a;
  }

  lemma ReachesNext<T(!new)>(edge: (T, T) -> bool, a: T, b: T, c: T)
    requires Reaches(edge, a, b) && edge(b, c)
    ensures Reaches(edge, a, c)
  {
    var p :| Path(edge, p) && p[0] == a && p[|p| - 1] == b;
    var q := p + [c];
    assert Path(edge, q) && q[0] == a && q[|q| - 1] == c;
  }

  /** A set with all its successors holds everything it can reach. */
  ghost predicate Closed<T(!new)>(edge: (T, T) -> bool, s: set<T>) {
    forall a, b :: a in s && edge(a, b) ==> b in s
  }

  lemma {:induction false} PathStaysInside<T(!new)>(edge: (T, T) -> bool, s: set<T>, p: seq<T>)
    requires Closed(edge, s) && Path(edge, p) && p[0] in s
    ensures p[|p| - 1] in s
    decreases |p|
  {
    if |p| > 1 {
      assert edge(p[0], p[1]);
      assert Path(edge, p[1..]) by {
        forall i | 0 <= i < |p[1..]| - 1
          ensures edge(p[1..][i], p[1..][i + 1])
        {
          assert edge(p[i + 1], p[i + 2]);
        }
      }
      PathStaysInside(edge, s, p[1..]);
    }
  }

  /** The least closed set that holds a node is what the node reaches. */
  lemma ClosureIsReach<T(!new)>(edge: (T, T) -> bool, s: set<T>, a: T)
    requires Closed(edge, s) && a in s && forall b :: b in s ==> Reaches(edge, a, b)
    ensures forall b :: b in s <==> Reaches(edge, a, b)
  {
    forall b | Reaches(edge, a, b)
      ensures b in s
    {
      var p :| Path(edge, p) && p[0] == a && p[|p| - 1] == b;
      PathStaysInside(edge, s, p);
    }
  }
}
