/** Cycles, and the depth-first search that finds one. */
module Cycles {
  import opened Text
  import opened Graph
  import opened Sorting

  type Names = Adjacency<string>

  /** A path that comes back to where it started. */
  predicate Cycle(g: Names, p: seq<string>)
  {
    |p| >= 2 && Path(g, p) && p[0] == p[|p| - 1]
  }

  ghost predicate Acyclic(g: Names)
  {
    forall p: seq<string> :: !Cycle(g, p)
  }

  // ----- A finishing order rules cycles out -----

  /** Every node's successors are finished before it. */
  ghost predicate Finished(g: Names, order: seq<string>)
  {
    forall i, s :: 0 <= i < |order| && s in Successors(g, order[i]) ==> s in order[..i]
  }

  /** The first place of a name. */
  function Position(order: seq<string>, x: string): (i: nat)
    requires x in order
    ensures i < |order| && order[i] == x && x !in order[..i]
  {
    if order[0] == x then 0
    else
      assert x in order[1..];
      var i := Position(order[1..], x);
      assert order[..i + 1] == [order[0]] + order[1..][..i];
      i + 1
  }

  lemma EarlierPlace(order: seq<string>, x: string, k: nat)
    requires k <= |order| && x in order[..k]
    ensures x in order && Position(order, x) < k
  {
    var i :| 0 <= i < k && order[..k][i] == x;
    assert order[i] == x;
    assert forall j :: 0 <= j < Position(order, x) ==> order[..Position(order, x)][j] == order[j];
  }

  lemma {:induction false} PathDescends(g: Names, order: seq<string>, p: seq<string>)
    requires Finished(g, order) && Path(g, p) && p[0] in order
    ensures |p| >= 2 ==> p[|p| - 1] in order[..Position(order, p[0])]
    decreases |p|
  {
    if |p| >= 2 {
      var i, tail := Position(order, p[0]), p[1..];
      assert p[1] in Successors(g, p[0]);
      EarlierPlace(order, p[1], i);
      PathDescends(g, order, tail);
      assert order[..i][..Position(order, p[1])] == order[..Position(order, p[1])];
    }
  }

  lemma FinishedHasNoCycle(g: Names, order: seq<string>, p: seq<string>)
    requires Finished(g, order) && p != [] && p[0] in order
    ensures !Cycle(g, p)
  {
    if Cycle(g, p) { PathDescends(g, order, p); }
  }

  // ----- The search -----

  datatype Color = Gray | Black

  ghost predicate Sound(g: Names, color: map<string, Color>, stack: seq<string>, done: seq<string>)
  {
    && (forall n :: n in stack <==> n in color && color[n].Gray?)
    && (forall n :: n in done <==> n in color && color[n].Black?)
    && (stack == [] || Path(g, stack))
    && Finished(g, done)
  }

  lemma Entered(g: Names, color: map<string, Color>, stack: seq<string>, done: seq<string>, node: string)
    requires Sound(g, color, stack, done) && node !in color
    requires stack == [] || node in Successors(g, stack[|stack| - 1])
    ensures Sound(g, color[node := Gray], stack + [node], done) && node !in stack
  {
  }

  lemma Left(g: Names, color: map<string, Color>, stack: seq<string>, done: seq<string>, node: string)
    requires Sound(g, color, stack + [node], done) && node !in stack
    requires forall s :: s in Successors(g, node) ==> s in done
    ensures Sound(g, color[node := Black], stack, done + [node])
  {
    assert stack != [] ==> forall i :: 0 <= i < |stack| ==> stack[i] == (stack + [node])[i];
    assert node in stack + [node];
    forall i, s | 0 <= i < |done| + 1 && s in Successors(g, (done + [node])[i])
      ensures s in (done + [node])[..i]
    {
      assert (done + [node])[..i] == done[..i];
      assert done[..|done|] == done;
    }
  }

  lemma TailIsCycle(g: Names, stack: seq<string>, k: nat, next: string)
    requires k < |stack| && Path(g, stack) && stack[k] == next && next in Successors(g, stack[|stack| - 1])
    ensures Cycle(g, stack[k..] + [next])
  {
    var p := stack[k..] + [next];
    forall i | 0 <= i < |p| - 1 ensures p[i + 1] in Successors(g, p[i]) {
      assert p[i] == stack[k + i] && (i + 1 < |p| - 1 ==> p[i + 1] == stack[k + i + 1]);
    }
  }

  /** Colours, stack and finishing order of one search; an uncoloured node is unvisited. */
  class Search {
    const g: Names
    var color: map<string, Color>
    var stack: seq<string>
    ghost var done: seq<string>

    ghost predicate Valid()
      reads this
    {
      Sound(g, color, stack, done)
    }

    constructor (g: Names)
      ensures Valid() && this.g == g && stack == [] && done == [] && color == map[]
    {
      this.g := g;
      color, stack, done := map[], [], [];
    }

    /** Visits a node that hangs off the top of the stack; ghost `all` holds every node of the graph. */
    method Visit(node: string, ghost all: set<string>) returns (r: Option<seq<string>>)
      requires Valid() && node !in color && node in all && Closed(g, all)
      requires stack == [] || node in Successors(g, stack[|stack| - 1])
      modifies this
      ensures r.Some? ==> Cycle(g, r.value)
      ensures r.None? ==> Valid() && stack == old(stack) && node in done
      ensures r.None? ==> old(color.Keys) <= color.Keys
      ensures r.None? ==> forall n :: n in old(done) ==> n in done
      decreases all - color.Keys
    {
      ghost var before := stack;
      Entered(g, color, stack, done, node);
      color := color[node := Gray];
      stack := stack + [node];
      var succ := Successors(g, node);
      for i := 0 to |succ|
        invariant Valid() && stack == before + [node]
        invariant old(color.Keys) + {node} <= color.Keys
        invariant forall j :: 0 <= j < i ==> succ[j] in done
        invariant forall n :: n in old(done) ==> n in done
      {
        var next := succ[i];
        if next in color && color[next].Gray? {
          var k := Position(stack, next);
          TailIsCycle(g, stack, k, next);
          return Some(stack[k..] + [next]);
        }
        if next !in color {
          var found := Visit(next, all);
          if found.Some? {
            return found;
          }
        }
      }
      Left(g, color, before, done, node);
      stack := stack[..|stack| - 1];
      color := color[node := Black];
      done := done + [node];
      r := None;
    }
  }

  /** Every source and every target. */
  function Nodes(g: Names): (all: set<string>)
    ensures g.Keys <= all && Closed(g, all)
  {
    g.Keys + set s, d | s in g && d in g[s] :: d
  }

  /** Nothing when the graph has no cycle, and otherwise one of its cycles. */
  method CheckCycle(g: Names) returns (r: Option<seq<string>>)
    ensures r.None? <==> Acyclic(g)
    ensures r.Some? ==> Cycle(g, r.value)
  {
    var ordered := SortNames(Nodes(g));
    var search := new Search(g);
    for i := 0 to |ordered|
      invariant fresh(search) && search.Valid() && search.stack == []
      invariant forall j :: 0 <= j < i ==> ordered[j] in search.done
    {
      assert ordered[i] in Nodes(g);
      if ordered[i] !in search.color {
        r := search.Visit(ordered[i], Nodes(g));
        if r.Some? {
          return;
        }
      }
    }
    r := None;
    forall p: seq<string> ensures !Cycle(g, p) {
      if Cycle(g, p) {
        assert p[1] in Successors(g, p[0]) && p[0] in Nodes(g) && p[0] in ordered;
        FinishedHasNoCycle(g, search.done, p);
      }
    }
  }

  // ----- Replacing one node's edges -----

  /** Away from `id`, the edges of `id` are irrelevant. */
  lemma PathElsewhere(g: Names, id: string, a: seq<string>, b: seq<string>, p: seq<string>)
    requires Path(g[id := a], p) && id !in p[..|p| - 1]
    ensures Path(g[id := b], p)
  {
    forall i | 0 <= i < |p| - 1 ensures p[i + 1] in Successors(g[id := b], p[i]) {
      assert p[..|p| - 1][i] == p[i] != id;
    }
  }

  lemma CycleElsewhere(g: Names, id: string, a: seq<string>, b: seq<string>, p: seq<string>)
    requires Cycle(g[id := a], p) && id !in p
    ensures !Acyclic(g[id := b])
  {
    PathElsewhere(g, id, a, b, p);
    assert Cycle(g[id := b], p);
  }

  /** The way back to a node of a cycle, from one of its successors. */
  lemma WayBack(g: Names, p: seq<string>, id: string) returns (q: seq<string>)
    requires Cycle(g, p) && id in p
    ensures Path(g, q) && q[0] in Successors(g, id) && q[|q| - 1] == id
  {
    var k := Position(p, id);
    if k == |p| - 1 { k := 0; }
    q := p[k + 1..] + p[1..k + 1];
    assert q[0] == p[k + 1];
    forall i | 0 <= i < |q| - 1 ensures q[i + 1] in Successors(g, q[i]) {
      var n := |p| - k - 1;
      if i + 1 < n {
        assert q[i] == p[k + 1 + i] && q[i + 1] == p[k + 2 + i];
      } else if i + 1 == n {
        assert q[i] == p[|p| - 1] == p[0] && q[i + 1] == p[1];
      } else {
        assert q[i] == p[i - n + 1] && q[i + 1] == p[i - n + 2];
      }
    }
  }

  lemma LoopThrough(g: Names, id: string, a: seq<string>, b: seq<string>, q: seq<string>)
    requires Path(g[id := a], q) && q[|q| - 1] == id && q[0] in b
    ensures !Acyclic(g[id := b])
  {
    var k := Position(q, id);
    var r := q[..k + 1];
    assert r[..|r| - 1] == q[..k];
    assert forall i :: 0 <= i < |r| ==> r[i] == q[i];
    PathElsewhere(g, id, a, b, r);
    var p := [id] + r;
    forall i | 0 <= i < |p| - 1 ensures p[i + 1] in Successors(g[id := b], p[i]) {
      assert p[i + 1] == r[i] && (i > 0 ==> p[i] == r[i - 1]);
    }
    assert Cycle(g[id := b], p);
  }

  /** If neither of two edge lists closes a cycle, no mixture of the two does. */
  lemma MixtureIsAcyclic(g: Names, id: string, a: seq<string>, b: seq<string>, mixed: seq<string>)
    requires Acyclic(g[id := a]) && Acyclic(g[id := b])
    requires forall x :: x in mixed ==> x in a || x in b
    ensures Acyclic(g[id := mixed])
  {
    var gm := g[id := mixed];
    forall p: seq<string> ensures !Cycle(gm, p) {
      if Cycle(gm, p) {
        if id in p {
          var q := WayBack(gm, p, id);
          if q[0] in a { LoopThrough(g, id, mixed, a, q); } else { LoopThrough(g, id, mixed, b, q); }
        } else {
          CycleElsewhere(g, id, mixed, a, p);
        }
      }
    }
  }
}
