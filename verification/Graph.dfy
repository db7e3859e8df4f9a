/** Directed graphs as adjacency lists; a node without a list has no successors. */
module Graph {

  type Adjacency<T> = map<T, seq<T>>

  function Successors<T(==)>(g: Adjacency<T>, a: T): seq<T>
  {
    if a in g then g[a] else []
  }

  predicate Path<T(==)>(g: Adjacency<T>, p: seq<T>)
  {
    p != [] && forall i :: 0 <= i < |p| - 1 ==> p[i + 1] in Successors(g, p[i])
  }

  predicate PathBetween<T(==)>(g: Adjacency<T>, p: seq<T>, a: T, b: T)
  {
    Path(g, p) && p[0] == a && p[|p| - 1] == b
  }

  ghost predicate Reaches<T(!new)>(g: Adjacency<T>, a: T, b: T)
  {
    exists p: seq<T> :: PathBetween(g, p, a, b)
  }

  ghost predicate Closed<T>(g: Adjacency<T>, s: set<T>)
  {
    forall a, b :: a in s && b in Successors(g, a) ==> b in s
  }

  lemma ReachesSelf<T(!new)>(g: Adjacency<T>, a: T)
    ensures Reaches(g, a, a)
  {
    assert PathBetween(g, [a], a, a);
  }

  lemma {:induction false} PathStaysInside<T>(g: Adjacency<T>, s: set<T>, p: seq<T>)
    requires Closed(g, s) && Path(g, p) && p[0] in s
    ensures p[|p| - 1] in s
  {
    if |p| > 1 {
      var init := p[..|p| - 1];
      assert forall i :: 0 <= i < |init| ==> init[i] == p[i];
      PathStaysInside(g, s, init);
    }
  }

  lemma ClosedHoldsReachable<T(!new)>(g: Adjacency<T>, s: set<T>, a: T, b: T)
    requires Closed(g, s) && a in s && Reaches(g, a, b)
    ensures b in s
  {
    var p: seq<T> :| PathBetween(g, p, a, b);
    PathStaysInside(g, s, p);
  }
}
