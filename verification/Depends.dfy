/** Authoring dependency edges: merging id lists, and keeping the tickets a DAG. */
module Depends {
  import opened Text
  import opened Sorting
  import opened Graph
  import opened Cycles

  // ----- Id lists -----

  /** One more id: trimmed, and dropped when blank or already there. */
  function Added(out: seq<string>, v: string): seq<string>
  {
    var id := TrimSpace(v);
    if id == "" || id in out then out else out + [id]
  }

  function Cleaned(vals: seq<string>): seq<string>
  {
    if vals == [] then [] else Added(Cleaned(vals[..|vals| - 1]), vals[|vals| - 1])
  }

  lemma CleanedStep(vals: seq<string>, i: nat)
    requires i < |vals|
    ensures Cleaned(vals[..i + 1]) == Added(Cleaned(vals[..i]), vals[i])
  {
    assert vals[..i + 1][..i] == vals[..i];
  }

  lemma CleanedAcross(read: seq<string>, group: seq<string>, i: nat)
    requires i < |group|
    ensures Cleaned(read + group[..i + 1]) == Added(Cleaned(read + group[..i]), group[i])
  {
    assert read + group[..i + 1] == read + group[..i] + [group[i]];
    CleanedPush(read + group[..i], group[i]);
  }

  lemma CleanedPush(vals: seq<string>, v: string)
    ensures Cleaned(vals + [v]) == Added(Cleaned(vals), v)
  {
    assert (vals + [v])[..|vals|] == vals;
  }

  method CleanIDs(vals: seq<string>) returns (out: seq<string>)
    ensures out == Cleaned(vals)
  {
    var seen: map<string, bool> := map[];
    out := [];
    for i := 0 to |vals|
      invariant out == Cleaned(vals[..i])
      invariant forall v :: v in seen && seen[v] <==> v in out
    {
      CleanedStep(vals, i);
      var v := TrimSpace(vals[i]);
      if v == "" || (v in seen && seen[v]) {
        continue;
      }
      seen := seen[v := true];
      out := out + [v];
    }
    assert vals[..|vals|] == vals;
  }

  /** Both lists as one: the ids of `existing` first. */
  method UnionIDs(existing: seq<string>, add: seq<string>) returns (out: seq<string>)
    ensures out == Cleaned(existing + add)
  {
    var seen: map<string, bool> := map[];
    var groups := [existing, add];
    out := [];
    ghost var read: seq<string> := [];
    for g := 0 to |groups|
      invariant read == if g == 0 then [] else if g == 1 then existing else existing + add
      invariant out == Cleaned(read)
      invariant forall v :: v in seen && seen[v] <==> v in out
    {
      var group := groups[g];
      assert read + group[..0] == read;
      for i := 0 to |group|
        invariant out == Cleaned(read + group[..i])
        invariant forall v :: v in seen && seen[v] <==> v in out
      {
        CleanedAcross(read, group, i);
        var v := TrimSpace(group[i]);
        if v == "" || (v in seen && seen[v]) {
          continue;
        }
        seen := seen[v := true];
        out := out + [v];
      }
      assert group[..|group|] == group;
      read := read + group;
      assert g == 0 ==> read == existing;
    }
  }

  predicate Mentions(vals: seq<string>, id: string)
  {
    exists i :: 0 <= i < |vals| && TrimSpace(vals[i]) == id
  }

  predicate Distinct(s: seq<string>)
  {
    forall i, j :: 0 <= i < j < |s| ==> s[i] != s[j]
  }

  /** Exactly the ids named, each once. */
  lemma {:induction false} CleanedHoldsMentions(vals: seq<string>)
    ensures forall id :: id in Cleaned(vals) <==> id != "" && Mentions(vals, id)
    ensures Distinct(Cleaned(vals))
  {
    if vals != [] {
      var init, last := vals[..|vals| - 1], vals[|vals| - 1];
      CleanedHoldsMentions(init);
      forall id | id != "" ensures Mentions(vals, id) <==> Mentions(init, id) || TrimSpace(last) == id {
        if Mentions(init, id) {
          var i :| 0 <= i < |init| && TrimSpace(init[i]) == id;
          assert TrimSpace(vals[i]) == id;
        }
        if TrimSpace(last) == id { assert TrimSpace(vals[|vals| - 1]) == id; }
      }
    }
  }

  /** Where a non-blank id stands for the first time. */
  function FirstPlaces(ids: seq<string>): set<nat>
  {
    set i: nat | i < |ids| && ids[i] != "" && ids[i] !in ids[..i]
  }

  /** The ids are those of the list, trimmed. */
  predicate Trims(vals: seq<string>, ids: seq<string>)
  {
    |ids| == |vals| && forall i :: 0 <= i < |vals| ==> ids[i] == TrimSpace(vals[i])
  }

  lemma FirstPlacesStep(ids: seq<string>, x: string)
    ensures FirstPlaces(ids + [x]) == if x != "" && x !in ids then FirstPlaces(ids) + {|ids|} else FirstPlaces(ids)
  {
    var more := ids + [x];
    assert more[..|ids|] == ids && forall i: nat :: i < |ids| ==> more[i] == ids[i] && more[..i] == ids[..i];
  }

  lemma CleanedMembers(vals: seq<string>, ids: seq<string>)
    requires Trims(vals, ids)
    ensures forall x :: x in Cleaned(vals) <==> x in ids && x != ""
  {
    CleanedHoldsMentions(vals);
    forall x ensures x in ids <==> Mentions(vals, x) {
      if x in ids {
        var i :| 0 <= i < |ids| && ids[i] == x;
        assert TrimSpace(vals[i]) == x;
      }
    }
  }

  /** Each non-blank id once, where it was first seen. */
  lemma {:induction false} CleanedPicks(vals: seq<string>, ids: seq<string>)
    requires Trims(vals, ids)
    ensures Picks(ids, FirstPlaces(ids), Cleaned(vals))
  {
    if vals == [] {
      assert FirstPlaces(ids) == {};
      PicksNone(ids);
    } else {
      var n := |vals| - 1;
      var init, x := ids[..n], ids[n];
      CleanedPicks(vals[..n], init);
      CleanedMembers(vals[..n], init);
      FirstPlacesStep(init, x);
      assert ids == init + [x];
      PicksStep(init, x, FirstPlaces(init), FirstPlaces(ids), x != "" && x !in init, Cleaned(vals[..n]));
    }
  }

  /** A list that is already as it would be stored. */
  predicate Clean(vals: seq<string>)
  {
    Cleaned(vals) == vals
  }

  /** Cleaning keeps what came first in front, so later ids never move earlier ones. */
  lemma {:induction false} CleanedExtends(a: seq<string>, b: seq<string>)
    ensures Cleaned(a) <= Cleaned(a + b)
  {
    if b == [] {
      assert a + b == a;
    } else {
      assert (a + b)[..|a + b| - 1] == a + b[..|b| - 1];
      CleanedExtends(a, b[..|b| - 1]);
    }
  }

  lemma {:induction false} CleanedTwice(a: seq<string>, b: seq<string>)
    ensures Cleaned(Cleaned(a) + b) == Cleaned(a + b)
    decreases |b|, |a|
  {
    if b != [] {
      var init := b[..|b| - 1];
      assert (a + b)[..|a + b| - 1] == a + init;
      assert (Cleaned(a) + b)[..|Cleaned(a) + b| - 1] == Cleaned(a) + init;
      CleanedTwice(a, init);
    } else if a == [] {
      assert a + b == a && Cleaned(a) + b == [];
    } else {
      assert a + b == a && Cleaned(a) + b == Cleaned(a);
      CleanIsClean(a);
    }
  }

  lemma {:induction false} CleanIsClean(a: seq<string>)
    ensures Clean(Cleaned(a))
  {
    if a != [] {
      var init, id := Cleaned(a[..|a| - 1]), TrimSpace(a[|a| - 1]);
      CleanIsClean(a[..|a| - 1]);
      TrimSpaceShape(a[|a| - 1]);
      TrimTight(id);
      assert (init + [id])[..|init|] == init;
    }
  }

  // ----- Edges -----

  datatype Edges = Edges(wants: seq<string>, after: seq<string>, needs: seq<string>)
  {
    /** The three relations as one list. */
    function All(): seq<string>
    {
      wants + after + needs
    }
  }

  type Specs = map<string, Edges>

  /** The union graph over every ticket's edges. */
  function Union(specs: Specs): Adjacency<string>
  {
    map t | t in specs :: specs[t].All()
  }

  /** A flag that was not passed carries no ids. */
  datatype Flag = Unset | Given(vals: seq<string>)
  {
    function Ids(): seq<string>
    {
      if Given? then vals else []
    }
  }

  datatype Command = Command(id: string, replace: bool, wants: Flag, after: Flag, needs: Flag)
  {
    predicate Touches(f: Flag)
    {
      if replace then f.Given? else f.Ids() != []
    }

    predicate SelfEdge()
    {
      Mentions(wants.Ids() + after.Ids() + needs.Ids(), id)
    }

    /** One relation's final set. */
    function Pick(existing: seq<string>, f: Flag): seq<string>
    {
      if replace then (if f.Given? then Cleaned(f.vals) else existing)
      else Cleaned(existing + f.Ids())
    }

    function Merged(e: Edges): Edges
    {
      Edges(Pick(e.wants, wants), Pick(e.after, after), Pick(e.needs, needs))
    }

    /** What reaches the spec: the merged set of the touched relations, the others as they stood. */
    function Written(e: Edges): Edges
    {
      var m := Merged(e);
      Edges(if Touches(wants) then m.wants else e.wants,
            if Touches(after) then m.after else e.after,
            if Touches(needs) then m.needs else e.needs)
    }
  }

  datatype Reply = NothingToAuthor | NotFound | SelfRefused | CycleRefused(path: seq<string>) | Accepted

  /** What a command may answer and leave behind; only the choice of cycle is open. */
  ghost predicate Step(s: Specs, c: Command, r: Reply, s': Specs)
  {
    if !c.Touches(c.wants) && !c.Touches(c.after) && !c.Touches(c.needs) then r == NothingToAuthor && s' == s
    else if c.id !in s then r == NotFound && s' == s
    else if c.SelfEdge() then r == SelfRefused && s' == s
    else
      var checked := Union(s[c.id := c.Merged(s[c.id])]);
      if Acyclic(checked) then r == Accepted && s' == s[c.id := c.Written(s[c.id])]
      else r.CycleRefused? && Cycle(checked, r.path) && s' == s
  }

  /** The specs of a store; the command rewrites one of them. */
  class SpecStore {
    var specs: Specs

    method FindsSelf(id: string, vals: seq<string>) returns (found: bool)
      ensures found == Mentions(vals, id)
    {
      for i := 0 to |vals|
        invariant forall j :: 0 <= j < i ==> TrimSpace(vals[j]) != id
      {
        if TrimSpace(vals[i]) == id {
          return true;
        }
      }
      found := false;
    }

    method PickIDs(c: Command, existing: seq<string>, f: Flag) returns (r: seq<string>)
      ensures r == c.Pick(existing, f)
    {
      if c.replace {
        if f.Given? {
          r := CleanIDs(f.vals);
        } else {
          r := existing;
        }
      } else {
        r := UnionIDs(existing, f.Ids());
      }
    }

    method Depends(c: Command) returns (r: Reply)
      modifies this
      ensures Step(old(specs), c, r, specs)
    {
      if !c.Touches(c.wants) && !c.Touches(c.after) && !c.Touches(c.needs) {
        return NothingToAuthor;
      }
      if c.id !in specs {
        return NotFound;
      }
      var self := FindsSelf(c.id, c.wants.Ids() + c.after.Ids() + c.needs.Ids());
      if self {
        return SelfRefused;
      }
      var existing := specs[c.id];
      var wants := PickIDs(c, existing.wants, c.wants);
      var after := PickIDs(c, existing.after, c.after);
      var needs := PickIDs(c, existing.needs, c.needs);
      var merged := Edges(wants, after, needs);
      var path := CheckCycle(Union(specs[c.id := merged]));
      if path.Some? {
        return CycleRefused(path.value);
      }
      var kept := existing;
      if c.Touches(c.wants) { kept := kept.(wants := merged.wants); }
      if c.Touches(c.after) { kept := kept.(after := merged.after); }
      if c.Touches(c.needs) { kept := kept.(needs := merged.needs); }
      specs := specs[c.id := kept];
      r := Accepted;
    }
  }

  // ----- The tickets stay a DAG -----

  lemma WrittenIsMixed(c: Command, e: Edges)
    ensures forall x :: x in c.Written(e).All() ==> x in e.All() || x in c.Merged(e).All()
  {
  }

  lemma UnionUpdate(s: Specs, id: string, e: Edges)
    ensures Union(s[id := e]) == Union(s)[id := e.All()]
  {
  }

  /** No command, accepted or refused, closes a cycle. */
  lemma StepKeepsAcyclic(s: Specs, c: Command, r: Reply, s': Specs)
    requires Acyclic(Union(s)) && Step(s, c, r, s')
    ensures Acyclic(Union(s'))
  {
    if r.Accepted? {
      var e := s[c.id];
      UnionUpdate(s, c.id, c.Merged(e));
      UnionUpdate(s, c.id, c.Written(e));
      assert Union(s)[c.id := e.All()] == Union(s);
      WrittenIsMixed(c, e);
      MixtureIsAcyclic(Union(s), c.id, e.All(), c.Merged(e).All(), c.Written(e).All());
    }
  }

  ghost predicate Run(states: seq<Specs>, commands: seq<Command>, replies: seq<Reply>)
  {
    && |states| == |commands| + 1 && |replies| == |commands|
    && forall i :: 0 <= i < |commands| ==> Step(states[i], commands[i], replies[i], states[i + 1])
  }

  /** Over every sequence of commands the tickets stay a DAG. */
  lemma {:induction false} RunKeepsAcyclic(states: seq<Specs>, commands: seq<Command>, replies: seq<Reply>, i: nat)
    requires Run(states, commands, replies) && Acyclic(Union(states[0])) && i < |states|
    ensures Acyclic(Union(states[i]))
  {
    if i > 0 {
      RunKeepsAcyclic(states, commands, replies, i - 1);
      StepKeepsAcyclic(states[i - 1], commands[i - 1], replies[i - 1], states[i]);
    }
  }

  /** The relations the command leaves alone are stored as they would be written. */
  predicate Settled(c: Command, e: Edges)
  {
    && (c.Touches(c.wants) || c.replace || Clean(e.wants))
    && (c.Touches(c.after) || c.replace || Clean(e.after))
    && (c.Touches(c.needs) || c.replace || Clean(e.needs))
  }

  /** The graph that is checked is the graph that is written exactly when the untouched relations are clean. */
  lemma WrittenIsChecked(c: Command, e: Edges)
    ensures c.Written(e) == c.Merged(e) <==> Settled(c, e)
  {
    assert e.wants + [] == e.wants && e.after + [] == e.after && e.needs + [] == e.needs;
  }

  // ----- When the refusal is exact -----

  /** On this store the graph that is checked has a cycle exactly if the graph that would be written has one. */
  ghost predicate Exact(s: Specs, c: Command)
    requires c.id in s
  {
    Acyclic(Union(s[c.id := c.Merged(s[c.id])])) <==> Acyclic(Union(s[c.id := c.Written(s[c.id])]))
  }

  ghost predicate SameMembers(a: seq<string>, b: seq<string>)
  {
    forall x :: x in a <==> x in b
  }

  lemma SameCycle(s: Specs, id: string, e: Edges, f: Edges, p: seq<string>)
    requires SameMembers(e.All(), f.All()) && Cycle(Union(s[id := f]), p)
    ensures Cycle(Union(s[id := e]), p)
  {
    forall i | 0 <= i < |p| - 1 ensures p[i + 1] in Successors(Union(s[id := e]), p[i]) {
      assert p[i + 1] in Successors(Union(s[id := f]), p[i]);
    }
  }

  lemma SameMembersSameCycles(s: Specs, id: string, e: Edges, f: Edges)
    requires SameMembers(e.All(), f.All()) && Acyclic(Union(s[id := e]))
    ensures Acyclic(Union(s[id := f]))
  {
    var g, h := Union(s[id := e]), Union(s[id := f]);
    forall p: seq<string> ensures !Cycle(h, p) {
      if Cycle(h, p) { SameCycle(s, id, e, f, p); }
    }
  }

  /** Only `id` has edges, and none to itself. */
  lemma LoneTicket(id: string, e: Edges)
    ensures Acyclic(Union(map[id := e])) <==> id !in e.All()
  {
    var g := Union(map[id := e]);
    if id in e.All() {
      assert id in Successors(g, id);
      assert Cycle(g, [id, id]);
    } else {
      forall p: seq<string> ensures !Cycle(g, p) {
        if Cycle(g, p) { TwoSteps(g, p); }
      }
    }
  }

  /** A cycle's first node has a successor that has one itself. */
  lemma TwoSteps(g: Adjacency<string>, p: seq<string>)
    requires Cycle(g, p)
    ensures p[1] in Successors(g, p[0])
    ensures |p| == 2 ==> p[1] == p[0]
    ensures |p| > 2 ==> p[2] in Successors(g, p[1])
    ensures |p| > 3 ==> p[3] in Successors(g, p[2])
  {
  }

  /** `id` has edges and `x` points back at it. */
  lemma TwoTickets(id: string, x: string, e: Edges)
    requires x != id && id !in e.All()
    ensures Acyclic(Union(map[id := e, x := Edges([id], [], [])])) <==> x !in e.All()
  {
    var g := Union(map[id := e, x := Edges([id], [], [])]);
    assert [id] + [] + [] == [id];
    assert g[x] == [id] && g[id] == e.All();
    if x in e.All() {
      assert g[x][0] == id;
      assert Cycle(g, [x, id, x]);
    } else {
      forall p: seq<string> ensures !Cycle(g, p) {
        if Cycle(g, p) { TwoSteps(g, p); }
      }
    }
  }

  lemma LoneTellsApart(c: Command, e: Edges)
    requires c.id in c.Merged(e).All() <==> c.id !in c.Written(e).All()
    ensures !Exact(map[c.id := e], c)
  {
    var s, m, w := map[c.id := e], c.Merged(e), c.Written(e);
    assert s[c.id := m] == map[c.id := m] && s[c.id := w] == map[c.id := w];
    LoneTicket(c.id, m);
    LoneTicket(c.id, w);
  }

  lemma PairTellsApart(c: Command, e: Edges, x: string)
    requires c.id !in c.Merged(e).All() && c.id !in c.Written(e).All() && x != c.id
    requires x in c.Merged(e).All() <==> x !in c.Written(e).All()
    ensures !Exact(map[c.id := e, x := Edges([c.id], [], [])], c)
  {
    var back, m, w := Edges([c.id], [], []), c.Merged(e), c.Written(e);
    var s := map[c.id := e, x := back];
    assert s[c.id := m] == map[c.id := m, x := back] && s[c.id := w] == map[c.id := w, x := back];
    TwoTickets(c.id, x, m);
    TwoTickets(c.id, x, w);
  }

  /** With different members, some store tells the two graphs apart, unless both point the ticket at itself. */
  lemma DifferentMembersTellApart(c: Command, e: Edges) returns (s: Specs)
    requires !SameMembers(c.Merged(e).All(), c.Written(e).All())
    requires !(c.id in c.Merged(e).All() && c.id in c.Written(e).All())
    ensures c.id in s && s[c.id] == e && !Exact(s, c)
  {
    if c.id in c.Merged(e).All() || c.id in c.Written(e).All() {
      s := map[c.id := e];
      LoneTellsApart(c, e);
    } else {
      var x :| x in c.Merged(e).All() <==> x !in c.Written(e).All();
      s := map[c.id := e, x := Edges([c.id], [], [])];
      PairTellsApart(c, e, x);
    }
  }

  /** The relations that an adding command leaves alone hold trimmed ids only. */
  predicate Trimmed(c: Command, e: Edges)
  {
    && (c.replace || c.Touches(c.wants) || AllTight(e.wants))
    && (c.replace || c.Touches(c.after) || AllTight(e.after))
    && (c.replace || c.Touches(c.needs) || AllTight(e.needs))
  }

  predicate AllTight(vals: seq<string>)
  {
    forall i :: 0 <= i < |vals| ==> Tight(vals[i])
  }

  lemma MentionsTight(vals: seq<string>)
    requires AllTight(vals)
    ensures SameMembers(Cleaned(vals), vals)
  {
    CleanedHoldsMentions(vals);
    forall x ensures x in Cleaned(vals) <==> x in vals {
      if x in vals {
        var i :| 0 <= i < |vals| && vals[i] == x;
        TrimTight(x);
        assert TrimSpace(vals[i]) == x;
      }
      if Mentions(vals, x) {
        var i :| 0 <= i < |vals| && TrimSpace(vals[i]) == x;
        TrimTight(vals[i]);
      }
    }
  }

  lemma CleanedIsTight(vals: seq<string>)
    ensures AllTight(Cleaned(vals))
  {
    CleanedHoldsMentions(vals);
    forall i | 0 <= i < |Cleaned(vals)| ensures Tight(Cleaned(vals)[i]) {
      var id := Cleaned(vals)[i];
      assert id in Cleaned(vals);
      var k :| 0 <= k < |vals| && TrimSpace(vals[k]) == id;
      TrimSpaceShape(vals[k]);
    }
  }

  /** A relation as picked and as stored. */
  lemma PickedRelation(c: Command, existing: seq<string>, f: Flag)
    requires !c.replace
    ensures AllTight(c.Pick(existing, f))
    ensures !c.Touches(f) ==> c.Pick(existing, f) == Cleaned(existing)
    ensures !c.Touches(f) && AllTight(existing) ==> SameMembers(c.Pick(existing, f), existing)
  {
    CleanedIsTight(existing + f.Ids());
    assert existing + [] == existing;
    if AllTight(existing) { MentionsTight(existing); }
  }

  lemma InAll(e: Edges, x: string)
    ensures x in e.All() <==> x in e.wants || x in e.after || x in e.needs
  {
  }

  lemma UntrimmedDiffers(c: Command, e: Edges, vals: seq<string>)
    requires !c.replace && !AllTight(vals) && forall x :: x in vals ==> x in c.Written(e).All()
    ensures !SameMembers(c.Merged(e).All(), c.Written(e).All())
  {
    var i :| 0 <= i < |vals| && !Tight(vals[i]);
    var x, m := vals[i], c.Merged(e);
    assert x in c.Written(e).All();
    PickedRelation(c, e.wants, c.wants);
    PickedRelation(c, e.after, c.after);
    PickedRelation(c, e.needs, c.needs);
    InAll(m, x);
  }

  /** Checked and written edges have the same members exactly if the relations left alone are trimmed. */
  lemma SameMembersExactly(c: Command, e: Edges)
    ensures SameMembers(c.Merged(e).All(), c.Written(e).All()) <==> Trimmed(c, e)
  {
    var m, w := c.Merged(e), c.Written(e);
    if !c.replace {
      PickedRelation(c, e.wants, c.wants);
      PickedRelation(c, e.after, c.after);
      PickedRelation(c, e.needs, c.needs);
      if Trimmed(c, e) {
        forall x ensures x in m.All() <==> x in w.All() {
          InAll(m, x);
          InAll(w, x);
        }
      } else if !c.Touches(c.wants) && !AllTight(e.wants) {
        UntrimmedDiffers(c, e, e.wants);
      } else if !c.Touches(c.after) && !AllTight(e.after) {
        UntrimmedDiffers(c, e, e.after);
      } else {
        UntrimmedDiffers(c, e, e.needs);
      }
    }
  }

  /**
   * For a command and a ticket's edges, the cycle check is exact on every store if and only if the relations left
   * alone hold trimmed ids, or the edit points the ticket at itself either way.
   */
  lemma RefusalExactly(c: Command, e: Edges)
    ensures (forall s: Specs :: c.id in s && s[c.id] == e ==> Exact(s, c)) <==>
      Trimmed(c, e) || (c.id in c.Merged(e).All() && c.id in c.Written(e).All())
  {
    var m, w := c.Merged(e), c.Written(e);
    SameMembersExactly(c, e);
    if Trimmed(c, e) {
      forall s: Specs | c.id in s && s[c.id] == e ensures Exact(s, c) {
        if Acyclic(Union(s[c.id := m])) { SameMembersSameCycles(s, c.id, m, w); }
        if Acyclic(Union(s[c.id := w])) { SameMembersSameCycles(s, c.id, w, m); }
      }
    } else if c.id in m.All() && c.id in w.All() {
      forall s: Specs | c.id in s && s[c.id] == e ensures Exact(s, c) {
        SelfLoop(s, c.id, m);
        SelfLoop(s, c.id, w);
      }
    } else {
      var s := DifferentMembersTellApart(c, e);
    }
  }

  lemma SelfLoop(s: Specs, id: string, e: Edges)
    requires id in e.All()
    ensures !Acyclic(Union(s[id := e]))
  {
    assert Cycle(Union(s[id := e]), [id, id]);
  }

  /** What the command answers then: refused if and only if the resulting graph has a cycle, and the path is one. */
  lemma RefusalIsExact(s: Specs, c: Command, r: Reply, s': Specs)
    requires Step(s, c, r, s') && c.id in s && Trimmed(c, s[c.id]) && (r.Accepted? || r.CycleRefused?)
    ensures var would := Union(s[c.id := c.Written(s[c.id])]);
      (r.CycleRefused? <==> !Acyclic(would)) && (r.CycleRefused? ==> Cycle(would, r.path))
  {
    var m, w := c.Merged(s[c.id]), c.Written(s[c.id]);
    SameMembersExactly(c, s[c.id]);
    if r.Accepted? { SameMembersSameCycles(s, c.id, m, w); } else { SameCycle(s, c.id, w, m, r.path); }
  }

  function Wanting(vals: seq<string>, after: seq<string>): Edges
  {
    Edges(vals, after, [])
  }

  lemma CleanedOne(x: string, y: string)
    requires Tight(y) && TrimSpace(x) == y
    ensures Cleaned([x]) == [y]
  {
    assert [x][..0] == [];
  }

  lemma FinishedIsAcyclic(g: Adjacency<string>, order: seq<string>)
    requires Finished(g, order) && forall n :: n in g ==> n in order
    ensures Acyclic(g)
  {
    forall p: seq<string> ensures !Cycle(g, p) {
      if Cycle(g, p) {
        assert p[1] in Successors(g, p[0]);
        FinishedHasNoCycle(g, order, p);
      }
    }
  }

  /** Two tickets: a wants b, and b's stored edge to a carries a blank, so it is no edge until it is trimmed. */
  predicate Unclean(s: Specs, a: string, b: string)
  {
    Tight(a) && Tight(b) && a != b && s.Keys == {a, b} && s[a] == Wanting([b], []) && s[b] == Wanting([" " + a], [])
  }

  lemma AddsOneId(c: Command, x: string)
    requires !c.replace && c.wants.Unset? && c.after == Given([x]) && c.needs.Unset? && Tight(x) && x != c.id
    ensures !c.SelfEdge() && c.Touches(c.after)
  {
    TrimTight(x);
    assert c.wants.Ids() + c.after.Ids() + c.needs.Ids() == [x];
  }

  /** Without that, a refusal can name a cycle that the edit would not have written. */
  lemma UncleanRefusal(s: Specs, c: Command, a: string, x: string, r: Reply, s': Specs)
    requires !c.replace && c.wants.Unset? && c.after == Given([x]) && c.needs.Unset?
    requires Unclean(s, a, c.id) && Tight(x) && x != a && x != c.id
    requires Step(s, c, r, s')
    ensures r.CycleRefused? && Acyclic(Union(s[c.id := c.Written(s[c.id])]))
  {
    AddsOneId(c, x);
    UncleanMerge(c, a, x);
    TwoCycle(a, c.id, x, s[c.id := c.Merged(s[c.id])]);
    UncleanIsAcyclic(a, c.id, x, s[c.id := c.Written(s[c.id])]);
  }

  lemma TwoCycle(a: string, b: string, x: string, s: Specs)
    requires a != b && a in s && b in s && s[a] == Wanting([b], []) && s[b] == Wanting([a], [x])
    ensures !Acyclic(Union(s))
  {
    var g := Union(s);
    assert g[a][0] == b && g[b][0] == a;
    assert Cycle(g, [a, b, a]);
  }

  lemma UncleanMerge(c: Command, a: string, x: string)
    requires !c.replace && c.wants.Unset? && c.after == Given([x]) && c.needs.Unset? && Tight(a) && Tight(x)
    ensures c.Merged(Wanting([" " + a], [])) == Wanting([a], [x])
    ensures c.Written(Wanting([" " + a], [])) == Wanting([" " + a], [x])
  {
    var raw := " " + a;
    assert raw[1..] == a && TrimLeft(raw) == TrimLeft(a);
    TrimTight(a);
    TrimTight(x);
    CleanedOne(raw, a);
    CleanedOne(x, x);
    assert [raw] + [] == [raw] && [] + [x] == [x];
  }

  lemma UncleanIsAcyclic(a: string, b: string, x: string, s: Specs)
    requires Tight(a) && Tight(b) && Tight(x) && a != b && b != x && x != a
    requires s.Keys == {a, b} && s[a] == Wanting([b], []) && s[b] == Wanting([" " + a], [x])
    ensures Acyclic(Union(s))
  {
    var raw, g := " " + a, Union(s);
    assert raw[0] == ' ';
    assert g[a] == [b] && g[b] == [raw, x];
    var order := [raw, x, b, a];
    assert order[..2] == [raw, x] && order[..3] == [raw, x, b];
    FinishedIsAcyclic(g, order);
  }

  /** Only the named ticket changes, and in add mode it loses nothing it had and gains what was named. */
  lemma AddKeepsEdges(s: Specs, c: Command, s': Specs)
    requires Step(s, c, Accepted, s') && !c.replace
    ensures s'.Keys == s.Keys && forall t :: t in s && t != c.id ==> s'[t] == s[t]
    ensures var e, e' := s[c.id], s'[c.id];
      && Kept(e.wants, c.wants.Ids(), e'.wants)
      && Kept(e.after, c.after.Ids(), e'.after)
      && Kept(e.needs, c.needs.Ids(), e'.needs)
  {
    var e := s[c.id];
    KeptByUnion(e.wants, c.wants.Ids());
    KeptByUnion(e.after, c.after.Ids());
    KeptByUnion(e.needs, c.needs.Ids());
  }

  /** The relation after a replacing command: the flag's ids, each once and as first seen, or what it was. */
  ghost predicate Replaced(before: seq<string>, f: Flag, now: seq<string>)
  {
    if f.Given? then exists ids :: Trims(f.vals, ids) && Picks(ids, FirstPlaces(ids), now)
    else now == before
  }

  lemma PickReplaces(c: Command, before: seq<string>, f: Flag)
    requires c.replace
    ensures Replaced(before, f, c.Pick(before, f))
  {
    if f.Given? {
      var ids := seq(|f.vals|, i requires 0 <= i < |f.vals| => TrimSpace(f.vals[i]));
      CleanedPicks(f.vals, ids);
      assert Trims(f.vals, ids);
    }
  }

  /** A replacing command leaves in each relation that was passed what was passed, and everything else as it was. */
  lemma SetReplacesEdges(s: Specs, c: Command, s': Specs)
    requires Step(s, c, Accepted, s') && c.replace
    ensures s'.Keys == s.Keys && forall t :: t in s && t != c.id ==> s'[t] == s[t]
    ensures var e, e' := s[c.id], s'[c.id];
      && Replaced(e.wants, c.wants, e'.wants)
      && Replaced(e.after, c.after, e'.after)
      && Replaced(e.needs, c.needs, e'.needs)
  {
    var e := s[c.id];
    PickReplaces(c, e.wants, c.wants);
    PickReplaces(c, e.after, c.after);
    PickReplaces(c, e.needs, c.needs);
  }

  predicate Carries(f: Flag)
  {
    f.Given? && f.vals != []
  }

  /** Something is to be written by the command: a flag was passed, or in add mode carries ids. */
  predicate Asks(c: Command)
  {
    if c.replace then c.wants.Given? || c.after.Given? || c.needs.Given?
    else Carries(c.wants) || Carries(c.after) || Carries(c.needs)
  }

  predicate Names(f: Flag, id: string)
  {
    f.Given? && exists i :: 0 <= i < |f.vals| && TrimSpace(f.vals[i]) == id
  }

  lemma PassedInFlags(a: seq<string>, b: seq<string>, d: seq<string>, id: string)
    ensures Mentions(a + b + d, id) <==> Mentions(a, id) || Mentions(b, id) || Mentions(d, id)
  {
    var all := a + b + d;
    if i :| 0 <= i < |a| && TrimSpace(a[i]) == id { assert all[i] == a[i]; }
    if i :| 0 <= i < |b| && TrimSpace(b[i]) == id { assert all[|a| + i] == b[i]; }
    if i :| 0 <= i < |d| && TrimSpace(d[i]) == id { assert all[|a| + |b| + i] == d[i]; }
  }

  /** The refusals that come before the graph is looked at, in their order. */
  lemma RefusesFirst(s: Specs, c: Command, r: Reply, s': Specs)
    requires Step(s, c, r, s')
    ensures r == NothingToAuthor <==> !Asks(c)
    ensures r == NotFound <==> Asks(c) && c.id !in s
    ensures r == SelfRefused <==>
      Asks(c) && c.id in s && (Names(c.wants, c.id) || Names(c.after, c.id) || Names(c.needs, c.id))
    ensures r != Accepted ==> s' == s
  {
    PassedInFlags(c.wants.Ids(), c.after.Ids(), c.needs.Ids(), c.id);
  }

  /** `now` names what `before` named, in that order, and then what was added. */
  predicate Kept(before: seq<string>, added: seq<string>, now: seq<string>)
  {
    if added == [] then now == before
    else
      && Cleaned(before) <= now && Distinct(now)
      && (forall i :: 0 <= i < |now| ==> Mentions(before, now[i]) || Mentions(added, now[i]))
      && (forall i :: 0 <= i < |added| ==> TrimSpace(added[i]) == "" || TrimSpace(added[i]) in now)
  }

  lemma KeptByUnion(before: seq<string>, added: seq<string>)
    ensures added != [] ==> Kept(before, added, Cleaned(before + added))
  {
    var now := Cleaned(before + added);
    CleanedExtends(before, added);
    CleanedHoldsMentions(before + added);
    forall i | 0 <= i < |now| ensures Mentions(before, now[i]) || Mentions(added, now[i]) {
      assert now[i] in now;
      var k :| 0 <= k < |before + added| && TrimSpace((before + added)[k]) == now[i];
      if k < |before| { assert TrimSpace(before[k]) == now[i]; } else { assert TrimSpace(added[k - |before|]) == now[i]; }
    }
    forall i | 0 <= i < |added| && TrimSpace(added[i]) != "" ensures TrimSpace(added[i]) in now {
      assert (before + added)[|before| + i] == added[i];
    }
  }
}
