/** Commands that author edges at the same time: checking the graph and writing the spec are two accesses. */
module DependsRace {
  import opened Text
  import opened Graph
  import opened Cycles
  import opened Depends

  /** A command that passed its check: what it will write, and the number of writes before the check. */
  datatype Passed = Passed(command: Command, merged: Edges, seen: nat)

  datatype State = State(specs: Specs, passed: map<nat, Passed>, writes: nat)

  datatype Action = Check(call: nat, command: Command) | Write(call: nat)

  /** The command gets as far as the cycle check and passes it. */
  ghost predicate Passes(s: Specs, c: Command)
  {
    && (c.Touches(c.wants) || c.Touches(c.after) || c.Touches(c.needs))
    && c.id in s && !c.SelfEdge()
    && Acyclic(Union(s[c.id := c.Merged(s[c.id])]))
  }

  /** The touched relations as merged when the command was checked, the others as they stand now. */
  function Over(c: Command, merged: Edges, now: Edges): Edges
  {
    Edges(if c.Touches(c.wants) then merged.wants else now.wants,
          if c.Touches(c.after) then merged.after else now.after,
          if c.Touches(c.needs) then merged.needs else now.needs)
  }

  ghost function Next(s: State, a: Action): State
  {
    match a
    case Check(k, c) =>
      if k in s.passed || !Passes(s.specs, c) then s
      else s.(passed := s.passed[k := Passed(c, c.Merged(s.specs[c.id]), s.writes)])
    case Write(k) =>
      if k !in s.passed || s.passed[k].command.id !in s.specs then s
      else
        var p := s.passed[k];
        State(s.specs[p.command.id := Over(p.command, p.merged, s.specs[p.command.id])], s.passed - {k}, s.writes + 1)
  }

  ghost function Run(s: State, acts: seq<Action>): State
  {
    if acts == [] then s else Next(Run(s, acts[..|acts| - 1]), acts[|acts| - 1])
  }

  function Start(specs: Specs): State
  {
    State(specs, map[], 0)
  }

  // ----- Writes that come right after their checks -----

  /** The spec is written although another was since the check. */
  predicate Stale(s: State, a: Action)
  {
    a.Write? && a.call in s.passed && s.passed[a.call].seen != s.writes
  }

  ghost predicate NoneStale(specs: Specs, acts: seq<Action>)
  {
    forall k :: 0 <= k < |acts| ==> !Stale(Run(Start(specs), acts[..k]), acts[k])
  }

  /** The command would pass its check now, and merge to the same edges. */
  ghost predicate StillPasses(specs: Specs, p: Passed)
  {
    Passes(specs, p.command) && p.merged == p.command.Merged(specs[p.command.id])
  }

  /** Whoever checked since the last write has checked the specs as they stand. */
  ghost predicate Current(s: State)
  {
    && (forall k :: k in s.passed ==> s.passed[k].seen <= s.writes)
    && (forall k :: k in s.passed && s.passed[k].seen == s.writes ==> StillPasses(s.specs, s.passed[k]))
  }

  lemma TimelyStep(s: State, a: Action)
    requires Current(s) && Acyclic(Union(s.specs)) && !Stale(s, a)
    ensures Current(Next(s, a)) && Acyclic(Union(Next(s, a).specs))
  {
    if a.Write? && a.call in s.passed {
      var c := s.passed[a.call].command;
      assert Over(c, c.Merged(s.specs[c.id]), s.specs[c.id]) == c.Written(s.specs[c.id]);
      StepKeepsAcyclic(s.specs, c, Accepted, Next(s, a).specs);
    }
  }

  lemma {:induction false} TimelyAlways(specs: Specs, acts: seq<Action>)
    requires Acyclic(Union(specs)) && NoneStale(specs, acts)
    ensures Current(Run(Start(specs), acts)) && Acyclic(Union(Run(Start(specs), acts).specs))
  {
    if acts != [] {
      var init := acts[..|acts| - 1];
      assert forall k :: 0 <= k < |init| ==> init[..k] == acts[..k] && init[k] == acts[k];
      TimelyAlways(specs, init);
      TimelyStep(Run(Start(specs), init), acts[|acts| - 1]);
    }
  }

  /** Over every interleaving in which no spec is written between a check and its write, the tickets stay a DAG. */
  lemma TimelyWritesKeepAcyclic(specs: Specs, acts: seq<Action>)
    requires Acyclic(Union(specs)) && NoneStale(specs, acts)
    ensures Acyclic(Union(Run(Start(specs), acts).specs))
  {
    TimelyAlways(specs, acts);
  }

  // ----- Two updates that are harmless alone -----

  /** Each node's new edges lead to the other node. */
  ghost predicate Mutual(g: Names, c: string, a: seq<string>, d: string, b: seq<string>)
  {
    exists x, y :: x in a && y in b && Reaches(g, x, d) && Reaches(g, y, c)
  }

  /** A path up to the first time it meets a node. */
  lemma UntilFirst(g: Names, p: seq<string>, x: string, d: string) returns (q: seq<string>)
    requires PathBetween(g, p, x, d)
    ensures PathBetween(g, q, x, d) && d !in q[..|q| - 1]
  {
    var k := Position(p, d);
    q := p[..k + 1];
    assert q[..|q| - 1] == p[..k] && forall i :: 0 <= i < |q| ==> q[i] == p[i];
  }

  /** A path after the last time it leaves a node that it does not end in. */
  lemma {:induction false} AfterLast(g: Names, p: seq<string>, d: string) returns (q: seq<string>)
    requires Path(g, p) && d in p[..|p| - 1] && p[|p| - 1] != d
    ensures Path(g, q) && q[0] in Successors(g, d) && q[|q| - 1] == p[|p| - 1] && d !in q
    decreases |p|
  {
    var k := Position(p, d);
    var rest := p[k + 1..];
    forall i | 0 <= i < |rest| - 1 ensures rest[i + 1] in Successors(g, rest[i]) {
      assert rest[i] == p[k + 1 + i] && rest[i + 1] == p[k + 2 + i];
    }
    if d in rest {
      assert rest[|rest| - 1] == p[|p| - 1];
      assert d in rest[..|rest| - 1] by {
        var i :| 0 <= i < |rest| && rest[i] == d;
        assert rest[..|rest| - 1][i] == d;
      }
      q := AfterLast(g, rest, d);
    } else {
      q := rest;
    }
  }

  lemma Joined(g: Names, p: seq<string>, q: seq<string>)
    requires Path(g, p) && Path(g, q) && q[0] in Successors(g, p[|p| - 1])
    ensures Path(g, p + q)
  {
    forall i | 0 <= i < |p + q| - 1 ensures (p + q)[i + 1] in Successors(g, (p + q)[i]) {
      if i < |p| - 1 {
        assert p[i + 1] in Successors(g, p[i]);
      } else if i >= |p| {
        assert q[i - |p| + 1] in Successors(g, q[i - |p|]);
      }
    }
  }

  /** A new edge's target does not lead back to its own node. */
  lemma NoWayHome(g: Names, d: string, b: seq<string>, y: string, p: seq<string>)
    requires d in g && Acyclic(g[d := b]) && y in b && Path(g, p) && p[0] == y
    ensures d !in p
  {
    if d in p {
      var k := Position(p, d);
      var q := p[..k + 1];
      assert g[d := g[d]] == g && forall i :: 0 <= i < |q| ==> q[i] == p[i];
      LoopThrough(g, d, g[d], b, q);
    }
  }

  lemma MutualCloses(g: Names, c: string, a: seq<string>, d: string, b: seq<string>)
    requires c in g && d in g && c != d && Acyclic(g[d := b]) && Mutual(g, c, a, d, b)
    ensures !Acyclic(g[d := b][c := a])
  {
    var x, y :| x in a && y in b && Reaches(g, x, d) && Reaches(g, y, c);
    var p0: seq<string> :| PathBetween(g, p0, x, d);
    var q: seq<string> :| PathBetween(g, q, y, c);
    var p := UntilFirst(g, p0, x, d);
    var h := g[d := b];
    assert g[d := g[d]] == g && h[c := g[c]] == h;
    PathElsewhere(g, d, g[d], b, p);
    NoWayHome(g, d, b, y, q);
    PathElsewhere(g, d, g[d], b, q);
    Joined(h, p, q);
    LoopThrough(h, c, g[c], a, p + q);
  }

  lemma ClosedIsMutual(g: Names, c: string, a: seq<string>, d: string, b: seq<string>, p: seq<string>)
    requires c in g && d in g && c != d && Acyclic(g[c := a]) && Acyclic(g[d := b])
    requires Cycle(g[d := b][c := a], p)
    ensures Mutual(g, c, a, d, b)
  {
    var h := g[d := b];
    assert h[c := g[c]] == h && g[d := g[d]] == g && g[c := g[c]] == g;
    if c !in p { CycleElsewhere(h, c, a, g[c], p); }
    var q0 := WayBack(h[c := a], p, c);
    var x := q0[0];
    var q := UntilFirst(h[c := a], q0, x, c);
    PathElsewhere(h, c, a, g[c], q);
    if d !in q {
      PathElsewhere(g, d, b, g[d], q);
      LoopThrough(g, c, g[c], a, q);
    } else {
      ThroughOther(g, d, b, q);
    }
  }

  lemma ThroughOther(g: Names, d: string, b: seq<string>, q: seq<string>)
    requires d in g && Path(g[d := b], q) && d in q && q[|q| - 1] != d
    ensures Reaches(g, q[0], d) && exists y :: y in b && Reaches(g, y, q[|q| - 1])
  {
    var h, k := g[d := b], Position(q, d);
    var head := q[..k + 1];
    assert g[d := g[d]] == g && head[..|head| - 1] == q[..k] && forall i :: 0 <= i < |head| ==> head[i] == q[i];
    PathElsewhere(g, d, b, g[d], head);
    assert PathBetween(g, head, q[0], d);
    assert q[..|q| - 1][k] == d;
    var tail := AfterLast(h, q, d);
    assert forall i :: 0 <= i < |tail| - 1 ==> tail[..|tail| - 1][i] == tail[i];
    PathElsewhere(g, d, b, g[d], tail);
    assert tail[0] in b && PathBetween(g, tail, tail[0], q[|q| - 1]);
  }

  /** Two updates that are harmless alone close a cycle together exactly if each leads to the other's node. */
  lemma TwoUpdates(g: Names, c: string, a: seq<string>, d: string, b: seq<string>)
    requires c in g && d in g && c != d && Acyclic(g[c := a]) && Acyclic(g[d := b])
    ensures Acyclic(g[d := b][c := a]) <==> !Mutual(g, c, a, d, b)
  {
    if Mutual(g, c, a, d, b) { MutualCloses(g, c, a, d, b); }
    if !Acyclic(g[d := b][c := a]) {
      var p: seq<string> :| Cycle(g[d := b][c := a], p);
      ClosedIsMutual(g, c, a, d, b, p);
    }
  }

  // ----- Two commands that both check before either writes -----

  function Crossing(c: Command, d: Command): seq<Action>
  {
    [Check(0, c)] + [Check(1, d)] + [Write(0)] + [Write(1)]
  }

  lemma RunStep(s: State, acts: seq<Action>, a: Action)
    ensures Run(s, acts + [a]) == Next(Run(s, acts), a)
  {
    assert (acts + [a])[..|acts|] == acts;
  }

  lemma CrossingResult(specs: Specs, c: Command, d: Command)
    requires Passes(specs, c) && Passes(specs, d)
    ensures var one := specs[c.id := c.Written(specs[c.id])];
      Run(Start(specs), Crossing(c, d)).specs == one[d.id := Over(d, d.Merged(specs[d.id]), one[d.id])]
  {
    var s := Start(specs);
    assert [] + [Check(0, c)] == [Check(0, c)];
    RunStep(s, [], Check(0, c));
    RunStep(s, [Check(0, c)], Check(1, d));
    BothPass(s, c, d);
    RunStep(s, [Check(0, c)] + [Check(1, d)], Write(0));
    RunStep(s, [Check(0, c)] + [Check(1, d)] + [Write(0)], Write(1));
    BothWrite(s, c, d);
  }

  function BothPassed(s: State, c: Command, d: Command): State
    requires c.id in s.specs && d.id in s.specs
  {
    s.(passed := s.passed[0 := Passed(c, c.Merged(s.specs[c.id]), s.writes)]
                         [1 := Passed(d, d.Merged(s.specs[d.id]), s.writes)])
  }

  lemma BothPass(s: State, c: Command, d: Command)
    requires 0 !in s.passed && 1 !in s.passed && Passes(s.specs, c) && Passes(s.specs, d)
    ensures Next(Next(s, Check(0, c)), Check(1, d)) == BothPassed(s, c, d)
  {
  }

  lemma WriteOne(s: State, k: nat)
    requires k in s.passed && s.passed[k].command.id in s.specs
    ensures var p := s.passed[k];
      Next(s, Write(k)) ==
      State(s.specs[p.command.id := Over(p.command, p.merged, s.specs[p.command.id])], s.passed - {k}, s.writes + 1)
  {
  }

  lemma BothWrite(s: State, c: Command, d: Command)
    requires c.id in s.specs && d.id in s.specs
    ensures var one := s.specs[c.id := c.Written(s.specs[c.id])];
      Next(Next(BothPassed(s, c, d), Write(0)), Write(1)).specs
      == one[d.id := Over(d, d.Merged(s.specs[d.id]), one[d.id])]
  {
    WriteOne(BothPassed(s, c, d), 0);
    WriteOne(Next(BothPassed(s, c, d), Write(0)), 1);
  }

  lemma WrittenAlone(specs: Specs, c: Command)
    requires Acyclic(Union(specs)) && Passes(specs, c)
    ensures Acyclic(Union(specs)[c.id := c.Written(specs[c.id]).All()])
  {
    StepKeepsAcyclic(specs, c, Accepted, specs[c.id := c.Written(specs[c.id])]);
    UnionUpdate(specs, c.id, c.Written(specs[c.id]));
  }

  /**
   * Two commands on different tickets that both pass the check on one store, and then both write, close a cycle
   * exactly if each one's written edges lead to the other's ticket in that store.
   */
  lemma CrossingExactly(specs: Specs, c: Command, d: Command)
    requires Acyclic(Union(specs)) && Passes(specs, c) && Passes(specs, d) && c.id != d.id
    ensures Acyclic(Union(Run(Start(specs), Crossing(c, d)).specs)) <==>
      !Mutual(Union(specs), d.id, d.Written(specs[d.id]).All(), c.id, c.Written(specs[c.id]).All())
  {
    var one := specs[c.id := c.Written(specs[c.id])];
    CrossingResult(specs, c, d);
    WrittenAlone(specs, c);
    WrittenAlone(specs, d);
    UnionUpdate(specs, c.id, c.Written(specs[c.id]));
    UnionUpdate(one, d.id, d.Written(specs[d.id]));
    TwoUpdates(Union(specs), d.id, d.Written(specs[d.id]).All(), c.id, c.Written(specs[c.id]).All());
  }

  /** Written over each other on one ticket, the edges of two harmless commands close no cycle. */
  lemma OverStaysAcyclic(specs: Specs, c: Command, d: Command)
    requires Acyclic(Union(specs)) && Passes(specs, c) && Passes(specs, d) && c.id == d.id
    ensures Acyclic(Union(specs[c.id := Over(d, d.Merged(specs[c.id]), c.Written(specs[c.id]))]))
  {
    var e := specs[c.id];
    var last := Over(d, d.Merged(e), c.Written(e));
    WrittenAlone(specs, c);
    UnionUpdate(specs, c.id, d.Merged(e));
    MixtureIsAcyclic(Union(specs), c.id, c.Written(e).All(), d.Merged(e).All(), last.All());
    UnionUpdate(specs, c.id, last);
  }

  lemma LastWriteStands(specs: Specs, id: string, a: Edges, b: Edges)
    ensures specs[id := a][id := b] == specs[id := b] && specs[id := a][id] == a
  {
  }

  /** On one ticket they close none. */
  lemma SameTicketStaysAcyclic(specs: Specs, c: Command, d: Command)
    requires Acyclic(Union(specs)) && Passes(specs, c) && Passes(specs, d) && c.id == d.id
    ensures Acyclic(Union(Run(Start(specs), Crossing(c, d)).specs))
  {
    var one, last := c.Written(specs[c.id]), Over(d, d.Merged(specs[c.id]), c.Written(specs[c.id]));
    LastWriteStands(specs, c.id, one, last);
    CrossingResult(specs, c, d);
    OverStaysAcyclic(specs, c, d);
    assert Run(Start(specs), Crossing(c, d)).specs == specs[c.id := last];
  }

  /** But an edge that the first one added to a relation of both is lost, unless the second one names it too. */
  lemma FirstAdditionIsLost(specs: Specs, c: Command, d: Command, x: string)
    requires Passes(specs, c) && Passes(specs, d) && c.id == d.id && !d.replace && d.Touches(d.wants) && x != ""
    ensures var now := Run(Start(specs), Crossing(c, d)).specs;
      c.id in now &&
      (x in now[c.id].wants <==> Mentions(specs[c.id].wants, x) || Mentions(d.wants.Ids(), x))
  {
    CrossingResult(specs, c, d);
    MentionsEither(specs[c.id].wants, d.wants.Ids(), x);
  }

  lemma MentionsEither(a: seq<string>, b: seq<string>, x: string)
    requires x != ""
    ensures x in Cleaned(a + b) <==> Mentions(a, x) || Mentions(b, x)
  {
    CleanedHoldsMentions(a + b);
    if i :| 0 <= i < |a| && TrimSpace(a[i]) == x { assert (a + b)[i] == a[i]; }
    if i :| 0 <= i < |b| && TrimSpace(b[i]) == x { assert (a + b)[|a| + i] == b[i]; }
  }
}
