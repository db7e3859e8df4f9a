/** Histories of commits, edits and test runs, and what an admitted review claim proves about them. */
module Evidence {
  import opened Text
  import opened Events
  import opened Pyramid

  /** `tree` is the checkout's pyramid; `ran` lists which scripts ran green on which clean commit. */
  datatype State = State(head: string, tree: Pyramid, dirty: bool, committed: map<string, Pyramid>,
                         log: seq<Event>, ran: set<(Scripts, string)>)

  /** What can happen to the checkout, between commands or while a climb is running. */
  datatype Change = Edit(tree: Pyramid) | Commit(sha: string) | Checkout(sha: string)

  /** `during(2 * i)` lists what happens just before rung i of a climb runs, `during(2 * i + 1)` what happens under it. */
  datatype Command =
    | Work(change: Change)
    | Test(logged: bool, only: bool, configured: string, argument: Option<string>, green: nat -> bool,
           during: nat -> seq<Change>)
    | FailResult(rung: string, commit: string)

  function TestResult(rung: string, commit: string, outcome: string): Event
  {
    Event(0, "test-result", 0, "", "", "", [], [], [], outcome, rung, commit, "", [], [], "", 0, "", "", "")
  }

  function Start(head: string, p: Pyramid): State
  {
    State(head, p, false, map[head := p], [], {})
  }

  /** A sha is never reused; checking out a commit restores its tree. */
  function Changed(s: State, c: Change): State
  {
    match c
    case Edit(tree) => s.(tree := tree, dirty := true)
    case Commit(sha) =>
      if sha in s.committed then s
      else s.(head := sha, dirty := false, committed := s.committed[sha := s.tree])
    case Checkout(sha) =>
      if sha !in s.committed then s else s.(head := sha, tree := s.committed[sha], dirty := false)
  }

  function ChangedAll(s: State, cs: seq<Change>): State
  {
    if cs == [] then s else Changed(ChangedAll(s, cs[..|cs| - 1]), cs[|cs| - 1])
  }

  /** The checkout after the first k + 1 of these lists. */
  function Meanwhile(s: State, during: nat -> seq<Change>, k: nat): State
  {
    ChangedAll(if k == 0 then s else Meanwhile(s, during, k - 1), during(k))
  }

  /** A clean checkout of this commit, which stays one whatever of the changes has happened. */
  predicate Steady(s: State, cs: seq<Change>, commit: string)
  {
    forall n :: 0 <= n <= |cs| ==> var x := ChangedAll(s, cs[..n]); !x.dirty && x.head == commit
  }

  /** Rung i starts and ends on a clean checkout of this commit. */
  predicate RunsOn(s: State, during: nat -> seq<Change>, i: nat, commit: string)
  {
    Steady(Meanwhile(s, during, 2 * i), during(2 * i + 1), commit)
  }

  /** The levels are those of the checkout when the climb began. */
  function RanGreen(s: State, c: Command, t: nat): set<(Scripts, string)>
    requires c.Test? && t < |s.tree|
  {
    set i | 0 <= i < HaltOf(s, c, t) && i <= t && c.green(i)
            && RunsOn(s, c.during, i, Meanwhile(s, c.during, 2 * i).head)
      :: (s.tree[i].Runs(), Meanwhile(s, c.during, 2 * i).head)
  }

  /** The rung the command climbs to, or runs alone; none when it refuses. */
  function Target(s: State, c: Command): (t: Option<nat>)
    requires c.Test?
    ensures t.Some? ==> t.value < |s.tree| && s.tree[t.value].name == TargetName(s.tree, c.configured, c.argument)
  {
    var name := TargetName(s.tree, c.configured, c.argument);
    IndexOfFirst(s.tree, name);
    if (c.only && c.logged) || !Valid(s.tree) then None else IndexOf(s.tree, name)
  }

  function RunTest(s: State, c: Command): State
    requires c.Test?
  {
    match Target(s, c)
    case None => s
    case Some(t) =>
      if c.only then
        var commit := Meanwhile(s, c.during, 0).head;
        var ran := if c.green(t) && RunsOn(s, c.during, 0, commit) then {(s.tree[t].Runs(), commit)} else {};
        Meanwhile(s, c.during, 1).(ran := s.ran + ran)
      else if c.logged && s.dirty then s
      else AfterClimb(s, c, t)
  }

  function HaltOf(s: State, c: Command, t: nat): (h: nat)
    requires c.Test? && t < |s.tree|
    ensures h <= t + 1
  {
    HaltMeans(s.tree[..t + 1], c.green, 0);
    Halt(s.tree[..t + 1], c.green, 0)
  }

  /** The last list of changes before the command is done: under the rung that halts it, or after the target. */
  function End(h: nat, t: nat): nat
  {
    if h <= t then 2 * h + 1 else 2 * h
  }

  /** The climb stops at its halting rung; a result is logged for the HEAD that is read after the target. */
  function AfterClimb(s: State, c: Command, t: nat): State
    requires c.Test? && t < |s.tree|
  {
    var h := HaltOf(s, c, t);
    var after := Meanwhile(s, c.during, End(h, t)).(ran := s.ran + RanGreen(s, c, t));
    if c.logged && h == t + 1 && c.green(t) then
      after.(log := s.log + [TestResult(s.tree[t].name, after.head, "")])
    else after
  }

  /** The command logs a result. */
  predicate Records(s: State, c: Command)
  {
    && c.Test? && c.logged && !c.only && !s.dirty && Target(s, c).Some?
    && HaltOf(s, c, Target(s, c).value) == Target(s, c).value + 1 && c.green(Target(s, c).value)
  }

  function Next(s: State, c: Command): State
  {
    match c
    case Work(change) => Changed(s, change)
    case FailResult(rung, commit) => s.(log := s.log + [TestResult(rung, commit, "fail")])
    case Test(_, _, _, _, _, _) => RunTest(s, c)
  }

  function Run(s: State, cs: seq<Command>): State
  {
    if cs == [] then s else Next(Run(s, cs[..|cs| - 1]), cs[|cs| - 1])
  }

  /** A run is refused when it is to log one rung alone, or to log over a dirty tree; a lone rung logs nothing. */
  lemma RefusesExactly(s: State, c: Command)
    requires c.Test?
    ensures c.logged && (c.only || s.dirty) ==> Next(s, c) == s
    ensures (forall i :: 0 <= i < |s.tree| ==> s.tree[i].name != TargetName(s.tree, c.configured, c.argument)) ==> Next(s, c) == s
    ensures c.only || !c.logged ==> Next(s, c).log == s.log
  {
    IndexOfFirst(s.tree, TargetName(s.tree, c.configured, c.argument));
    if c.only || !c.logged { TestLogs(s, c); }
  }

  lemma {:induction false} ChangesLogNothing(s: State, cs: seq<Change>)
    ensures ChangedAll(s, cs).log == s.log
  {
    if cs != [] { ChangesLogNothing(s, cs[..|cs| - 1]); }
  }

  lemma {:induction false} MeanwhileLogsNothing(s: State, during: nat -> seq<Change>, k: nat)
    ensures Meanwhile(s, during, k).log == s.log
  {
    if k > 0 { MeanwhileLogsNothing(s, during, k - 1); }
    ChangesLogNothing(if k == 0 then s else Meanwhile(s, during, k - 1), during(k));
  }

  lemma TestLogs(s: State, c: Command)
    requires c.Test? && (c.only || !c.logged)
    ensures Next(s, c).log == s.log
  {
    MeanwhileLogsNothing(s, c.during, 1);
    var t := Target(s, c);
    if t.Some? { MeanwhileLogsNothing(s, c.during, End(HaltOf(s, c, t.value), t.value)); }
  }

  // ----- What no step undoes -----

  ghost predicate Settled(s: State)
  {
    s.head in s.committed && (!s.dirty ==> s.tree == s.committed[s.head])
  }

  ghost predicate Keeps(s: State, t: State)
  {
    && s.ran <= t.ran && s.log <= t.log
    && forall c :: c in s.committed ==> c in t.committed && t.committed[c] == s.committed[c]
  }

  lemma {:induction false} ChangesKeep(s: State, cs: seq<Change>)
    requires Settled(s)
    ensures var t := ChangedAll(s, cs); Settled(t) && Keeps(s, t) && t.log == s.log && t.ran == s.ran
  {
    if cs != [] { ChangesKeep(s, cs[..|cs| - 1]); }
  }

  lemma {:induction false} MeanwhileKeeps(s: State, during: nat -> seq<Change>, i: nat)
    requires Settled(s)
    ensures var t := Meanwhile(s, during, i); Settled(t) && Keeps(s, t) && t.log == s.log && t.ran == s.ran
    ensures forall k: nat :: k <= i ==> Meanwhile(s, during, k).head in Meanwhile(s, during, i).committed
  {
    if i > 0 { MeanwhileKeeps(s, during, i - 1); }
    ChangesKeep(if i == 0 then s else Meanwhile(s, during, i - 1), during(i));
  }

  lemma {:induction false} Untouched(s: State, during: nat -> seq<Change>, i: nat)
    requires forall k: nat :: during(k) == []
    ensures Meanwhile(s, during, i) == s
  {
    if i > 0 { Untouched(s, during, i - 1); }
  }

  lemma TestKeeps(s: State, c: Command)
    requires Settled(s) && c.Test?
    ensures Settled(RunTest(s, c)) && Keeps(s, RunTest(s, c))
    ensures RunTest(s, c).log == s.log || Records(s, c)
  {
    MeanwhileKeeps(s, c.during, 1);
    var t := Target(s, c);
    if t.Some? { MeanwhileKeeps(s, c.during, End(HaltOf(s, c, t.value), t.value)); }
  }

  /** Every command keeps what was logged, what ran and what was committed. */
  lemma StepKeeps(s: State, c: Command)
    requires Settled(s)
    ensures Settled(Next(s, c)) && Keeps(s, Next(s, c))
  {
    if c.Test? { TestKeeps(s, c); }
  }

  lemma {:induction false} RunKeeps(s: State, cs: seq<Command>)
    requires Settled(s)
    ensures Settled(Run(s, cs)) && Keeps(s, Run(s, cs))
  {
    if cs != [] {
      RunKeeps(s, cs[..|cs| - 1]);
      StepKeeps(Run(s, cs[..|cs| - 1]), cs[|cs| - 1]);
    }
  }

  // ----- Soundness -----

  /** Every required rung of p up to j ran green at this commit. */
  ghost predicate ProvenUpTo(p: Pyramid, j: nat, commit: string, ran: set<(Scripts, string)>)
  {
    forall i :: 0 <= i <= j && i < |p| && p[i].Required() ==> (p[i].Runs(), commit) in ran
  }

  ghost predicate Honest(s: State, e: Event)
  {
    CountsAsGreen(e) ==>
      e.commit in s.committed &&
      exists j :: 0 <= j < |s.committed[e.commit]| && s.committed[e.commit][j].name == e.rung
               && ProvenUpTo(s.committed[e.commit], j, e.commit, s.ran)
  }

  ghost predicate Faithful(s: State)
  {
    && Settled(s)
    && (forall x :: x in s.ran ==> x.1 in s.committed)
    && forall k :: 0 <= k < |s.log| ==> Honest(s, s.log[k])
  }

  /** What the command logs, if anything, is true of the commit it names. */
  ghost predicate Credible(s: State, c: Command)
  {
    var u := Next(s, c);
    |u.log| > |s.log| ==> Honest(u, u.log[|s.log|])
  }

  lemma HonestyLasts(s: State, t: State, e: Event)
    requires Honest(s, e) && Keeps(s, t)
    ensures Honest(t, e)
  {
    if CountsAsGreen(e) {
      var p := s.committed[e.commit];
      var j :| 0 <= j < |p| && p[j].name == e.rung && ProvenUpTo(p, j, e.commit, s.ran);
      assert ProvenUpTo(p, j, e.commit, t.ran);
    }
  }

  lemma RecordedShape(s: State, c: Command)
    requires Records(s, c)
    ensures var t := Target(s, c).value;
      var after := Meanwhile(s, c.during, 2 * t + 2);
      Next(s, c) == after.(ran := s.ran + RanGreen(s, c, t), log := s.log + [TestResult(s.tree[t].name, after.head, "")])
  {
    var t := Target(s, c).value;
    assert End(t + 1, t) == 2 * t + 2;
    assert Next(s, c) == RunTest(s, c) == AfterClimb(s, c, t);
  }

  lemma FaithfulRan(s: State, c: Command)
    requires Faithful(s)
    ensures forall x :: x in Next(s, c).ran ==> x.1 in Next(s, c).committed
  {
    StepKeeps(s, c);
    if c.Test? && Target(s, c).Some? {
      var t := Target(s, c).value;
      MeanwhileKeeps(s, c.during, 1);
      MeanwhileKeeps(s, c.during, End(HaltOf(s, c, t), t));
    }
  }

  lemma FaithfulStep(s: State, c: Command)
    requires Faithful(s) && Credible(s, c)
    ensures Faithful(Next(s, c))
  {
    var t := Next(s, c);
    StepKeeps(s, c);
    FaithfulRan(s, c);
    if c.Test? { TestKeeps(s, c); }
    forall k | 0 <= k < |t.log|
      ensures Honest(t, t.log[k])
    {
      if k < |s.log| { HonestyLasts(s, t, s.log[k]); }
    }
  }

  /** Every result of the history was credible when it was logged. */
  ghost predicate AllCredible(s: State, cs: seq<Command>)
  {
    cs == [] || (AllCredible(s, cs[..|cs| - 1]) && Credible(Run(s, cs[..|cs| - 1]), cs[|cs| - 1]))
  }

  lemma {:induction false} FaithfulAlways(head: string, p: Pyramid, cs: seq<Command>)
    requires AllCredible(Start(head, p), cs)
    ensures Faithful(Run(Start(head, p), cs))
  {
    if cs != [] {
      var init := cs[..|cs| - 1];
      FaithfulAlways(head, p, init);
      FaithfulStep(Run(Start(head, p), init), cs[|cs| - 1]);
    }
  }

  /** Nothing happens to the checkout while a logged climb runs. */
  ghost predicate Undisturbed(c: Command)
  {
    c.Test? && c.logged ==> forall i: nat :: c.during(i) == []
  }

  /** A finished climb leaves a green run of every required rung up to its target. */
  lemma ClimbProves(s: State, c: Command)
    requires Records(s, c) && forall i: nat :: c.during(i) == []
    ensures ProvenUpTo(s.tree, Target(s, c).value, s.head, RanGreen(s, c, Target(s, c).value))
  {
    var t := Target(s, c).value;
    HaltMeans(s.tree[..t + 1], c.green, 0);
    forall i | 0 <= i <= t && s.tree[i].Required()
      ensures (s.tree[i].Runs(), s.head) in RanGreen(s, c, t)
    {
      assert s.tree[..t + 1][i] == s.tree[i] && c.green(i);
      Untouched(s, c.during, 2 * i);
      assert RunsOn(s, c.during, i, s.head);
    }
  }

  lemma UndisturbedIsCredible(s: State, c: Command)
    requires Faithful(s) && Undisturbed(c)
    ensures Credible(s, c)
  {
    if Records(s, c) {
      var t := Target(s, c).value;
      RecordedShape(s, c);
      Untouched(s, c.during, 2 * t + 2);
      ClimbProves(s, c);
      assert ProvenUpTo(s.tree, t, s.head, Next(s, c).ran);
    } else if c.Test? {
      TestKeeps(s, c);
    }
  }

  lemma {:induction false} UndisturbedAreCredible(head: string, p: Pyramid, cs: seq<Command>)
    requires forall k :: 0 <= k < |cs| ==> Undisturbed(cs[k])
    ensures AllCredible(Start(head, p), cs)
  {
    if cs != [] {
      var init := cs[..|cs| - 1];
      UndisturbedAreCredible(head, p, init);
      FaithfulAlways(head, p, init);
      UndisturbedIsCredible(Run(Start(head, p), init), cs[|cs| - 1]);
    }
  }

  /**
   * The checkout's pyramid asks for no less than the committed one: a rung that would satisfy all of
   * the tree's requirements is at or above every required rung of p.
   */
  ghost predicate Demands(tree: Pyramid, p: Pyramid)
  {
    forall j, k :: 0 <= j < |p| && 0 <= k < |tree| && tree[k].name == p[j].name
      && (forall i :: 0 <= i < |tree| && tree[i].Required() ==> i <= k)
      ==> forall i :: 0 <= i < |p| && p[i].Required() ==> i <= j
  }

  lemma CleanTreeDemands(p: Pyramid)
    requires Valid(p)
    ensures Demands(p, p)
  {
  }

  /** A result that names this rung satisfies all of the tree's requirements. */
  predicate Reaches(tree: Pyramid, rung: string)
  {
    exists k :: 0 <= k < |tree| && tree[k].name == rung && forall i :: 0 <= i < |tree| && tree[i].Required() ==> i <= k
  }

  lemma ReachingAdmits(log: seq<Event>, tree: Pyramid, head: string, e: Event)
    requires e in log && CountsAsGreen(e) && e.commit == head && Reaches(tree, e.rung)
    ensures GateVerdict(log, Live(tree, head)) == Admitted
  {
    var i :| 0 <= i < |log| && log[i] == e;
    ResultsAreLogged(log, Result(e.rung, e.commit));
    var m :| 0 <= m < |Results(log)| && Results(log)[m] == Result(e.rung, e.commit);
    SelectEmpty(tree, Results(log), head, |tree|);
  }

  lemma AdmittedRests(log: seq<Event>, tree: Pyramid, head: string) returns (e: Event)
    requires Valid(tree) && GateVerdict(log, Live(tree, head)) == Admitted
    ensures e in log && CountsAsGreen(e) && e.commit == head && Reaches(tree, e.rung)
  {
    var results := Results(log);
    SelectEmpty(tree, results, head, |tree|);
    HighestRequiredIsTop(tree);
    var top := HighestRequired(tree).value;
    assert Covered(tree, results, head, top);
    var m: nat, j: nat :| m < |results| && top <= j < |tree| && results[m] == Result(tree[j].name, head);
    ResultsAreLogged(log, results[m]);
    var i :| 0 <= i < |log| && CountsAsGreen(log[i]) && results[m] == Result(log[i].rung, log[i].commit);
    e := log[i];
  }

  /** The gate admits exactly when one green result at HEAD reaches the tree's highest required rung. */
  lemma AdmittedExactly(log: seq<Event>, tree: Pyramid, head: string)
    requires Valid(tree)
    ensures GateVerdict(log, Live(tree, head)) == Admitted <==>
      exists k :: 0 <= k < |log| && CountsAsGreen(log[k]) && log[k].commit == head && Reaches(tree, log[k].rung)
  {
    if GateVerdict(log, Live(tree, head)) == Admitted {
      var e := AdmittedRests(log, tree, head);
    }
    if k: nat :| k < |log| && CountsAsGreen(log[k]) && log[k].commit == head && Reaches(tree, log[k].rung) {
      ReachingAdmits(log, tree, head, log[k]);
    }
  }

  function AtHead(s: State): Pyramid
  {
    if s.head in s.committed then s.committed[s.head] else []
  }

  ghost predicate AllRequiredRan(p: Pyramid, commit: string, ran: set<(Scripts, string)>)
  {
    forall i :: 0 <= i < |p| && p[i].Required() ==> (p[i].Runs(), commit) in ran
  }

  lemma FaithfulAdmitsProven(s: State)
    requires Faithful(s) && Valid(s.tree) && Demands(s.tree, AtHead(s))
    requires GateVerdict(s.log, Live(s.tree, s.head)) == Admitted
    ensures AllRequiredRan(AtHead(s), s.head, s.ran)
  {
    var e := AdmittedRests(s.log, s.tree, s.head);
    assert Honest(s, e);
    var q := AtHead(s);
    var j :| 0 <= j < |q| && q[j].name == e.rung && ProvenUpTo(q, j, s.head, s.ran);
    var k :| 0 <= k < |s.tree| && s.tree[k].name == e.rung
      && forall i :: 0 <= i < |s.tree| && s.tree[i].Required() ==> i <= k;
    assert forall i :: 0 <= i < |q| && q[i].Required() ==> i <= j;
  }

  /**
   * If the gate admits at HEAD, every rung that the commit requires ran green at that very commit: over
   * all histories whose results were credible, over a tree that demands what the commit does.
   */
  lemma AdmittedIsProven(head: string, p: Pyramid, cs: seq<Command>)
    requires AllCredible(Start(head, p), cs)
    requires var s := Run(Start(head, p), cs);
      Valid(s.tree) && GateVerdict(s.log, Live(s.tree, s.head)) == Admitted && Demands(s.tree, AtHead(s))
    ensures var s := Run(Start(head, p), cs); AllRequiredRan(AtHead(s), s.head, s.ran)
  {
    FaithfulAlways(head, p, cs);
    FaithfulAdmitsProven(Run(Start(head, p), cs));
  }

  /** On a clean checkout whose logged climbs ran undisturbed, an admitted claim is simply true. */
  lemma CleanCheckoutIsProven(head: string, p: Pyramid, cs: seq<Command>)
    requires forall k :: 0 <= k < |cs| ==> Undisturbed(cs[k])
    requires var s := Run(Start(head, p), cs);
      Valid(s.tree) && !s.dirty && GateVerdict(s.log, Live(s.tree, s.head)) == Admitted
    ensures var s := Run(Start(head, p), cs); AllRequiredRan(s.tree, s.head, s.ran)
  {
    UndisturbedAreCredible(head, p, cs);
    FaithfulAlways(head, p, cs);
    CleanTreeDemands(Run(Start(head, p), cs).tree);
    AdmittedIsProven(head, p, cs);
  }

  // ----- Climbs that the checkout changes under -----

  /** These scripts ran green at this commit, before this climb or on some rung of it. */
  ghost predicate RanBy(s: State, c: Command, t: nat, scripts: Scripts, commit: string)
    requires c.Test? && t < |s.tree|
  {
    (scripts, commit) in s.ran
    || exists r :: 0 <= r <= t && s.tree[r].Runs() == scripts && c.green(r) && RunsOn(s, c.during, r, commit)
  }

  lemma RecordedRan(s: State, c: Command, scripts: Scripts, commit: string)
    requires Records(s, c)
    ensures (scripts, commit) in Next(s, c).ran <==> RanBy(s, c, Target(s, c).value, scripts, commit)
  {
    RecordedShape(s, c);
    var t := Target(s, c).value;
    forall i: nat, x | RunsOn(s, c.during, i, x) ensures x == Meanwhile(s, c.during, 2 * i).head {
      assert c.during(2 * i + 1)[..0] == [];
    }
    if r :| 0 <= r <= t && s.tree[r].Runs() == scripts && c.green(r) && RunsOn(s, c.during, r, commit) {
      assert (s.tree[r].Runs(), Meanwhile(s, c.during, 2 * r).head) in RanGreen(s, c, t);
    }
  }

  /**
   * Whatever happens to the checkout during a logged climb, from any state: the gate then admits exactly if
   * it did so before or the logged name reaches the new tree's requirements, and the claim is proven exactly
   * if the scripts of every rung the new commit requires ran green on a clean checkout of that commit.
   */
  lemma InterruptedClimb(s: State, c: Command)
    requires Settled(s) && Records(s, c)
    ensures var u, t := Next(s, c), Target(s, c).value;
      && Settled(u) && u.head == Meanwhile(s, c.during, 2 * t + 2).head && u.tree == Meanwhile(s, c.during, 2 * t + 2).tree
      && (Valid(u.tree) ==> (GateVerdict(u.log, Live(u.tree, u.head)) == Admitted <==>
            GateVerdict(s.log, Live(u.tree, u.head)) == Admitted || Reaches(u.tree, s.tree[t].name)))
      && (AllRequiredRan(AtHead(u), u.head, u.ran) <==>
            forall i :: 0 <= i < |AtHead(u)| && AtHead(u)[i].Required() ==> RanBy(s, c, t, AtHead(u)[i].Runs(), u.head))
  {
    var u, t := Next(s, c), Target(s, c).value;
    StepKeeps(s, c);
    RecordedShape(s, c);
    if Valid(u.tree) { OneMoreResult(s.log, u.log[|s.log|], u.tree, u.head); }
    forall i | 0 <= i < |AtHead(u)| && AtHead(u)[i].Required()
      ensures (AtHead(u)[i].Runs(), u.head) in u.ran <==> RanBy(s, c, t, AtHead(u)[i].Runs(), u.head)
    {
      RecordedRan(s, c, AtHead(u)[i].Runs(), u.head);
    }
  }

  /** The checkout when the climb reads HEAD. */
  function Last(s: State, c: Command): State
    requires c.Test? && Target(s, c).Some?
  {
    Meanwhile(s, c.during, 2 * Target(s, c).value + 2)
  }

  ghost predicate AllRunBy(s: State, c: Command, p: Pyramid, commit: string)
    requires c.Test? && Target(s, c).Some?
  {
    forall i :: 0 <= i < |p| && p[i].Required() ==> RanBy(s, c, Target(s, c).value, p[i].Runs(), commit)
  }

  lemma ProvenBy(s: State, c: Command)
    requires Settled(s) && Records(s, c)
    ensures var u, last := Next(s, c), Last(s, c);
      && u.head == last.head && u.tree == last.tree && u.dirty == last.dirty && u.committed == last.committed
      && (AllRequiredRan(AtHead(u), u.head, u.ran) <==> AllRunBy(s, c, AtHead(last), last.head))
  {
    RecordedShape(s, c);
    InterruptedClimb(s, c);
  }

  lemma OneMoreResult(log: seq<Event>, e: Event, tree: Pyramid, head: string)
    requires Valid(tree) && CountsAsGreen(e) && e.commit == head
    ensures GateVerdict(log + [e], Live(tree, head)) == Admitted <==>
      GateVerdict(log, Live(tree, head)) == Admitted || Reaches(tree, e.rung)
  {
    var more := log + [e];
    AdmittedExactly(log, tree, head);
    AdmittedExactly(more, tree, head);
    assert more[|log|] == e && forall k :: 0 <= k < |log| ==> more[k] == log[k];
  }

  /** What a logged climb records is credible exactly under this condition on the rungs it ran. */
  lemma CredibleExactly(s: State, c: Command)
    requires Settled(s) && Records(s, c)
    ensures var u, t := Next(s, c), Target(s, c).value;
      Credible(s, c) <==>
        exists j :: 0 <= j < |AtHead(u)| && AtHead(u)[j].name == s.tree[t].name
          && forall i :: 0 <= i <= j && AtHead(u)[i].Required() ==> RanBy(s, c, t, AtHead(u)[i].Runs(), u.head)
  {
    var u, t := Next(s, c), Target(s, c).value;
    var q := AtHead(u);
    StepKeeps(s, c);
    RecordedShape(s, c);
    forall j | 0 <= j < |q|
      ensures ProvenUpTo(q, j, u.head, u.ran)
         <==> forall i :: 0 <= i <= j && q[i].Required() ==> RanBy(s, c, t, q[i].Runs(), u.head)
    {
      forall i | 0 <= i < |q| ensures (q[i].Runs(), u.head) in u.ran <==> RanBy(s, c, t, q[i].Runs(), u.head) {
        RecordedRan(s, c, q[i].Runs(), u.head);
      }
    }
  }

  // ----- Which schedules are safe whatever the outcomes -----

  /** The command is a logged climb that gets under way. */
  predicate Climbs(s: State, c: Command)
  {
    c.Test? && c.logged && !c.only && !s.dirty && Target(s, c).Some?
  }

  /** Some rung with these scripts, one that a recorded climb must have run green, runs on this commit. */
  ghost predicate MustRun(s: State, c: Command, t: nat, scripts: Scripts, commit: string)
    requires c.Test? && t < |s.tree|
  {
    (scripts, commit) in s.ran
    || exists r :: 0 <= r <= t && s.tree[r].Runs() == scripts && (s.tree[r].Required() || r == t)
                && RunsOn(s, c.during, r, commit)
  }

  /** The outcome that helps least: only required rungs and the target are green. */
  function Barely(s: State, t: nat): nat -> bool
  {
    (i: nat) => i == t || (i < |s.tree| && s.tree[i].Required())
  }

  lemma BarelyRecords(s: State, c: Command)
    requires Climbs(s, c)
    ensures Records(s, c.(green := Barely(s, Target(s, c).value)))
    ensures Target(s, c.(green := Barely(s, Target(s, c).value))) == Target(s, c)
  {
    var t := Target(s, c).value;
    HaltMeans(s.tree[..t + 1], Barely(s, t), 0);
  }

  lemma MustHaveRun(s: State, c: Command, scripts: Scripts, commit: string)
    requires Records(s, c) && MustRun(s, c, Target(s, c).value, scripts, commit)
    ensures RanBy(s, c, Target(s, c).value, scripts, commit)
  {
    var t := Target(s, c).value;
    if (scripts, commit) !in s.ran {
      var r :| 0 <= r <= t && s.tree[r].Runs() == scripts && (s.tree[r].Required() || r == t)
            && RunsOn(s, c.during, r, commit);
      if s.tree[r].Required() { GreenOnTheWay(s, c, r); }
    }
  }

  /** With these outcomes the claim is proven. */
  ghost predicate Proves(s: State, c: Command)
    requires c.Test?
  {
    var u := Next(s, c); AllRequiredRan(AtHead(u), u.head, u.ran)
  }

  ghost predicate AllMustRun(s: State, c: Command, p: Pyramid, commit: string)
    requires c.Test? && Target(s, c).Some?
  {
    forall i :: 0 <= i < |p| && p[i].Required() ==> MustRun(s, c, Target(s, c).value, p[i].Runs(), commit)
  }

  /**
   * The changes during a climb can be judged before any rung has run: every recorded result of the climb is
   * proven, whatever its outcomes, if and only if each rung the last commit requires has its scripts on record
   * for it, or on a rung of the climb that is required or the target and that starts and ends on that commit.
   */
  lemma SafeSchedule(s: State, c: Command)
    requires Settled(s) && Climbs(s, c)
    ensures (forall green :: Records(s, c.(green := green)) ==> Proves(s, c.(green := green)))
       <==> AllMustRun(s, c, AtHead(Last(s, c)), Last(s, c).head)
  {
    if AllMustRun(s, c, AtHead(Last(s, c)), Last(s, c).head) {
      forall green | Records(s, c.(green := green)) ensures Proves(s, c.(green := green)) {
        SafeOutcome(s, c, c.(green := green));
      }
    }
    if forall green :: Records(s, c.(green := green)) ==> Proves(s, c.(green := green)) {
      BarelyRecords(s, c);
      BarelyProves(s, c, c.(green := Barely(s, Target(s, c).value)));
    }
  }

  lemma SafeOutcome(s: State, c: Command, d: Command)
    requires Settled(s) && Climbs(s, c) && d.Test? && d == c.(green := d.green) && Records(s, d)
    requires AllMustRun(s, c, AtHead(Last(s, c)), Last(s, c).head)
    ensures Proves(s, d)
  {
    assert Last(s, d) == Last(s, c);
    ProvenBy(s, d);
    var q, commit := AtHead(Last(s, c)), Last(s, c).head;
    forall i | 0 <= i < |q| && q[i].Required()
      ensures RanBy(s, d, Target(s, d).value, q[i].Runs(), commit)
    {
      assert MustRun(s, c, Target(s, c).value, q[i].Runs(), commit);
      MustHaveRun(s, d, q[i].Runs(), commit);
    }
  }

  lemma BarelyProves(s: State, c: Command, d: Command)
    requires Settled(s) && Climbs(s, c) && d == c.(green := Barely(s, Target(s, c).value)) && Records(s, d)
    requires Proves(s, d)
    ensures AllMustRun(s, c, AtHead(Last(s, c)), Last(s, c).head)
  {
    assert Last(s, d) == Last(s, c);
    ProvenBy(s, d);
    var q, commit := AtHead(Last(s, c)), Last(s, c).head;
    forall i | 0 <= i < |q| && q[i].Required()
      ensures MustRun(s, c, Target(s, c).value, q[i].Runs(), commit)
    {
      assert RanBy(s, d, Target(s, d).value, q[i].Runs(), commit);
    }
  }

  // ----- One commit, or one edit, during a climb -----

  /** Changes that all happen at one point of the climb. */
  function OnceAt(point: nat, changes: seq<Change>): nat -> seq<Change>
  {
    (k: nat) => if k == point then changes else []
  }

  lemma {:induction false} MeanwhileOnce(s: State, point: nat, changes: seq<Change>, k: nat)
    ensures Meanwhile(s, OnceAt(point, changes), k) == if k < point then s else ChangedAll(s, changes)
  {
    if k > 0 { MeanwhileOnce(s, point, changes, k - 1); }
  }

  lemma LandedState(s: State, sha: string, tree: Pyramid)
    requires sha !in s.committed
    ensures ChangedAll(s, [Edit(tree), Commit(sha)])
         == s.(head := sha, tree := tree, dirty := false, committed := s.committed[sha := tree])
  {
    var cs := [Edit(tree), Commit(sha)];
    assert cs[..1] == [cs[0]] && cs[..1][..0] == [];
    assert ChangedAll(s, cs[..1]) == Changed(s, cs[0]);
  }

  /** A rung of the climb with these scripts that started after this point and was green. */
  ghost predicate RanAfter(s: State, c: Command, t: nat, point: nat, scripts: Scripts)
    requires c.Test? && t < |s.tree|
  {
    exists r :: 0 <= r <= t && point <= 2 * r && s.tree[r].Runs() == scripts && c.green(r)
  }

  /**
   * A commit that lands at any point of a climb gets the credit, since HEAD is read after it. The claim is
   * admitted exactly if the logged rung reaches the landed pyramid's requirements, and proven exactly if the
   * scripts of every rung the landed pyramid requires are those of a rung that started later and was green.
   */
  lemma LandedCommit(s: State, c: Command, point: nat, sha: string, tree: Pyramid)
    requires Faithful(s) && Records(s, c) && Valid(tree) && sha !in s.committed
    requires point <= 2 * Target(s, c).value + 2 && c.during == OnceAt(point, [Edit(tree), Commit(sha)])
    ensures var u, t := Next(s, c), Target(s, c).value;
      && u.head == sha && u.tree == tree && !u.dirty
      && (GateVerdict(u.log, Live(u.tree, u.head)) == Admitted <==> Reaches(tree, s.tree[t].name))
      && (AllRequiredRan(u.tree, u.head, u.ran) <==>
            forall i :: 0 <= i < |tree| && tree[i].Required() ==> RanAfter(s, c, t, point, tree[i].Runs()))
  {
    LandedLast(s, c, point, sha, tree);
    ProvenBy(s, c);
    InterruptedClimb(s, c);
    NothingAt(s, sha, tree);
    var t := Target(s, c).value;
    forall i | 0 <= i < |tree|
      ensures RanBy(s, c, t, tree[i].Runs(), sha) <==> RanAfter(s, c, t, point, tree[i].Runs())
    {
      LandedRan(s, c, point, sha, tree, tree[i].Runs());
    }
  }

  lemma LandedLast(s: State, c: Command, point: nat, sha: string, tree: Pyramid)
    requires Records(s, c) && sha !in s.committed
    requires point <= 2 * Target(s, c).value + 2 && c.during == OnceAt(point, [Edit(tree), Commit(sha)])
    ensures var last := Last(s, c); last.head == sha && last.tree == tree && !last.dirty && AtHead(last) == tree
  {
    LandedState(s, sha, tree);
    MeanwhileOnce(s, point, [Edit(tree), Commit(sha)], 2 * Target(s, c).value + 2);
  }

  /** A commit that is not there has no results. */
  lemma NothingAt(s: State, sha: string, tree: Pyramid)
    requires Faithful(s) && Valid(tree) && sha !in s.committed
    ensures GateVerdict(s.log, Live(tree, sha)) != Admitted
  {
    if GateVerdict(s.log, Live(tree, sha)) == Admitted {
      var e := AdmittedRests(s.log, tree, sha);
    }
  }

  lemma LandedRunsOn(s: State, point: nat, sha: string, tree: Pyramid, r: nat)
    requires Settled(s) && sha !in s.committed
    ensures RunsOn(s, OnceAt(point, [Edit(tree), Commit(sha)]), r, sha) <==> point <= 2 * r
  {
    var during := OnceAt(point, [Edit(tree), Commit(sha)]);
    MeanwhileOnce(s, point, [Edit(tree), Commit(sha)], 2 * r);
    LandedState(s, sha, tree);
    assert during(2 * r + 1)[..0] == [] && ChangedAll(Meanwhile(s, during, 2 * r), []) == Meanwhile(s, during, 2 * r);
  }

  lemma LandedRan(s: State, c: Command, point: nat, sha: string, tree: Pyramid, scripts: Scripts)
    requires Faithful(s) && Records(s, c) && sha !in s.committed
    requires c.during == OnceAt(point, [Edit(tree), Commit(sha)])
    ensures var t := Target(s, c).value; RanBy(s, c, t, scripts, sha) <==> RanAfter(s, c, t, point, scripts)
  {
    var t := Target(s, c).value;
    assert (scripts, sha) !in s.ran;
    forall r: nat ensures RunsOn(s, c.during, r, sha) <==> point <= 2 * r { LandedRunsOn(s, point, sha, tree, r); }
  }

  /** A rung that the landed commit requires, new or with changed scripts, is admitted without a run of them. */
  lemma ChangedRungIsUnproven(s: State, c: Command, point: nat, sha: string, tree: Pyramid, k: nat)
    requires Faithful(s) && Records(s, c) && Valid(tree) && sha !in s.committed
    requires point <= 2 * Target(s, c).value + 2 && c.during == OnceAt(point, [Edit(tree), Commit(sha)])
    requires Reaches(tree, s.tree[Target(s, c).value].name)
    requires k < |tree| && tree[k].Required() && forall r :: 0 <= r < |s.tree| ==> s.tree[r].Runs() != tree[k].Runs()
    ensures var u := Next(s, c);
      GateVerdict(u.log, Live(u.tree, u.head)) == Admitted && !AllRequiredRan(u.tree, u.head, u.ran)
  {
    LandedCommit(s, c, point, sha, tree);
  }

  /**
   * An edit at any point of a climb leaves the credit with HEAD: the claim is proven exactly if every rung that
   * HEAD requires had ended there before the edit, in this climb or an earlier run.
   */
  lemma EditedCheckout(s: State, c: Command, point: nat, tree: Pyramid)
    requires Settled(s) && Records(s, c) && Valid(tree)
    requires point <= 2 * Target(s, c).value + 2 && c.during == OnceAt(point, [Edit(tree)])
    ensures var u, t := Next(s, c), Target(s, c).value;
      && u.head == s.head && u.tree == tree && u.dirty
      && (GateVerdict(u.log, Live(u.tree, u.head)) == Admitted <==>
            GateVerdict(s.log, Live(tree, s.head)) == Admitted || Reaches(tree, s.tree[t].name))
      && (AllRequiredRan(AtHead(u), u.head, u.ran) <==>
            forall i :: 0 <= i < |s.tree| && s.tree[i].Required() ==>
              (s.tree[i].Runs(), s.head) in s.ran || (2 * i + 1 < point && i <= t))
  {
    EditedLast(s, c, point, tree);
    ProvenBy(s, c);
    InterruptedClimb(s, c);
    var t := Target(s, c).value;
    forall i | 0 <= i < |s.tree| && s.tree[i].Required()
      ensures RanBy(s, c, t, s.tree[i].Runs(), s.head) <==>
              (s.tree[i].Runs(), s.head) in s.ran || (2 * i + 1 < point && i <= t)
    {
      EditedRan(s, c, point, tree, i);
    }
  }

  lemma EditedLast(s: State, c: Command, point: nat, tree: Pyramid)
    requires Settled(s) && Records(s, c)
    requires point <= 2 * Target(s, c).value + 2 && c.during == OnceAt(point, [Edit(tree)])
    ensures var last := Last(s, c); last.head == s.head && last.tree == tree && last.dirty && AtHead(last) == s.tree
  {
    assert [Edit(tree)][..0] == [];
    assert ChangedAll(s, [Edit(tree)]) == s.(tree := tree, dirty := true);
    MeanwhileOnce(s, point, [Edit(tree)], 2 * Target(s, c).value + 2);
  }

  lemma EditedRunsOn(s: State, point: nat, tree: Pyramid, r: nat)
    requires !s.dirty
    ensures RunsOn(s, OnceAt(point, [Edit(tree)]), r, s.head) <==> 2 * r + 1 < point
  {
    var during := OnceAt(point, [Edit(tree)]);
    MeanwhileOnce(s, point, [Edit(tree)], 2 * r);
    assert [Edit(tree)][..0] == [] && [Edit(tree)][..1] == [Edit(tree)];
    var at := Meanwhile(s, during, 2 * r);
    assert ChangedAll(at, during(2 * r + 1)[..0]) == at;
    if point == 2 * r + 1 { assert ChangedAll(at, during(2 * r + 1)[..1]).dirty; }
  }

  lemma EditedRan(s: State, c: Command, point: nat, tree: Pyramid, i: nat)
    requires Records(s, c) && c.during == OnceAt(point, [Edit(tree)])
    requires i < |s.tree| && s.tree[i].Required()
    ensures var t := Target(s, c).value;
      RanBy(s, c, t, s.tree[i].Runs(), s.head) <==> (s.tree[i].Runs(), s.head) in s.ran || (2 * i + 1 < point && i <= t)
  {
    var t := Target(s, c).value;
    forall r: nat ensures RunsOn(s, c.during, r, s.head) <==> 2 * r + 1 < point { EditedRunsOn(s, point, tree, r); }
    if i <= t { GreenOnTheWay(s, c, i); }
    if r :| 0 <= r <= t && s.tree[r].Runs() == s.tree[i].Runs() && c.green(r) && RunsOn(s, c.during, r, s.head) {
      NamesApart(s.tree, r, i);
    }
  }

  lemma GreenOnTheWay(s: State, c: Command, i: nat)
    requires Records(s, c) && i <= Target(s, c).value && s.tree[i].Required()
    ensures c.green(i)
  {
    var levels := s.tree[..Target(s, c).value + 1];
    HaltMeans(levels, c.green, 0);
    assert levels[i] == s.tree[i];
  }

  lemma NamesApart(p: Pyramid, i: nat, j: nat)
    requires Valid(p) && i < |p| && j < |p| && p[i].name == p[j].name
    ensures i == j
  {
  }

  lemma IndexOfName(p: Pyramid, j: nat)
    requires Valid(p) && j < |p|
    ensures IndexOf(p, p[j].name) == Some(j)
  {
    IndexOfFirst(p, p[j].name);
    var r := IndexOf(p, p[j].name);
    if r.Some? { NamesApart(p, r.value, j); }
  }

  // ----- Which working trees the gate can be trusted over -----

  /** Every undisturbed history that ends with this tree over a commit of p admits only proven claims. */
  ghost predicate Trustworthy(p: Pyramid, tree: Pyramid)
  {
    forall cs: seq<Command> :: (forall k :: 0 <= k < |cs| ==> Undisturbed(cs[k])) ==>
      var s := Run(Start("c0", p), cs);
      s.tree == tree && AtHead(s) == p && GateVerdict(s.log, Live(s.tree, s.head)) == Admitted
      ==> AllRequiredRan(p, s.head, s.ran)
  }

  lemma {:induction false} AllGreenFinishes(levels: Pyramid, green: nat -> bool, i: nat)
    requires i <= |levels| && forall k: nat :: i <= k < |levels| ==> green(k)
    ensures Halt(levels, green, i) == |levels|
    decreases |levels| - i
  {
    if i < |levels| { AllGreenFinishes(levels, green, i + 1); }
  }

  /** An undisturbed logged climb to rung j of p, green so far. */
  function LogRung(p: Pyramid, j: nat): Command
    requires j < |p|
  {
    Test(true, false, "", Some(p[j].name), (i: nat) => i <= j, (i: nat) => [])
  }

  lemma LoggedOnly(p: Pyramid, j: nat)
    requires Valid(p) && j < |p|
    ensures var s := Next(Start("c0", p), LogRung(p, j));
      && s.head == "c0" && AtHead(s) == p && s.log == [TestResult(p[j].name, "c0", "")]
      && forall x :: x in s.ran ==> exists i :: 0 <= i <= j && x == (p[i].Runs(), "c0")
  {
    var s0, c := Start("c0", p), LogRung(p, j);
    IndexOfName(p, j);
    AllGreenFinishes(p[..j + 1], c.green, 0);
    RecordedShape(s0, c);
    Untouched(s0, c.during, 2 * j + 2);
    forall i: nat ensures Meanwhile(s0, c.during, i) == s0 { Untouched(s0, c.during, i); }
    assert [] + [TestResult(p[j].name, "c0", "")] == [TestResult(p[j].name, "c0", "")];
  }

  /** A rung that is enough for the edited tree but below one that the commit requires. */
  predicate Weak(p: Pyramid, tree: Pyramid, j: nat)
  {
    j < |p| && Reaches(tree, p[j].name) && !(forall i :: 0 <= i < |p| && p[i].Required() ==> i <= j)
  }

  /** The history that exploits an undemanding tree: log a lower rung, then weaken the pyramid file. */
  lemma WeakRungAdmits(p: Pyramid, tree: Pyramid, j: nat)
    requires Valid(p) && Weak(p, tree, j)
    ensures var s := Run(Start("c0", p), [LogRung(p, j), Work(Edit(tree))]);
      && s.tree == tree && AtHead(s) == p && GateVerdict(s.log, Live(s.tree, s.head)) == Admitted
      && !AllRequiredRan(p, s.head, s.ran)
  {
    var cs := [LogRung(p, j), Work(Edit(tree))];
    var s1 := Next(Start("c0", p), cs[0]);
    LoggedOnly(p, j);
    assert cs[..1][..0] == [] && cs[..1] == [cs[0]] && Run(Start("c0", p), cs[..1]) == s1;
    var s := Run(Start("c0", p), cs);
    assert s == Next(s1, cs[1]);
    ReachingAdmits(s.log, tree, "c0", s.log[0]);
    var i :| 0 <= i < |p| && p[i].Required() && i > j;
    assert (p[i].Runs(), "c0") !in s.ran;
  }

  lemma WeakTreeIsUntrustworthy(p: Pyramid, tree: Pyramid)
    requires Valid(p) && !Demands(tree, p)
    ensures !Trustworthy(p, tree)
  {
    var j, k :| 0 <= j < |p| && 0 <= k < |tree| && tree[k].name == p[j].name
      && (forall i :: 0 <= i < |tree| && tree[i].Required() ==> i <= k)
      && !(forall i :: 0 <= i < |p| && p[i].Required() ==> i <= j);
    assert Weak(p, tree, j);
    WeakRungAdmits(p, tree, j);
    var cs := [LogRung(p, j), Work(Edit(tree))];
    assert forall c :: 0 <= c < |cs| ==> Undisturbed(cs[c]);
  }

  /** The gate can be trusted over exactly those trees that demand what the commit demands. */
  lemma TrustworthyExactly(p: Pyramid, tree: Pyramid)
    requires Valid(p) && Valid(tree)
    ensures Trustworthy(p, tree) <==> Demands(tree, p)
  {
    if Demands(tree, p) {
      forall cs: seq<Command> | forall k :: 0 <= k < |cs| ==> Undisturbed(cs[k])
        ensures var s := Run(Start("c0", p), cs);
          s.tree == tree && AtHead(s) == p && GateVerdict(s.log, Live(s.tree, s.head)) == Admitted
          ==> AllRequiredRan(p, s.head, s.ran)
      {
        var s := Run(Start("c0", p), cs);
        if s.tree == tree && AtHead(s) == p && GateVerdict(s.log, Live(s.tree, s.head)) == Admitted {
          UndisturbedAreCredible("c0", p, cs);
          AdmittedIsProven("c0", p, cs);
        }
      }
    } else {
      WeakTreeIsUntrustworthy(p, tree);
    }
  }

  // ----- Completeness -----

  /** A clean logged climb whose target and required rungs are green logs one result. */
  lemma CleanClimbLogs(s: State, c: Command, t: nat)
    requires Valid(s.tree) && !s.dirty && c.Test? && c.logged && !c.only && Undisturbed(c)
    requires t < |s.tree| && TargetName(s.tree, c.configured, c.argument) == s.tree[t].name
    requires c.green(t) && forall i: nat :: i <= t && s.tree[i].Required() ==> c.green(i)
    ensures Next(s, c).log == s.log + [TestResult(s.tree[t].name, s.head, "")]
    ensures Next(s, c).head == s.head && Next(s, c).tree == s.tree && (Settled(s) ==> Settled(Next(s, c)))
  {
    IndexOfName(s.tree, t);
    HaltMeans(s.tree[..t + 1], c.green, 0);
    RecordedShape(s, c);
    Untouched(s, c.during, 2 * t + 2);
  }

  /**
   * After a clean logged climb through the highest required rung with every required rung green, the gate
   * admits whenever the checkout is at that commit with that pyramid: at once, and after any later commits,
   * edits, runs and checkouts that lead back there.
   */
  lemma CleanClimbAdmits(s: State, c: Command, t: nat, later: seq<Command>)
    requires Settled(s) && Valid(s.tree) && !s.dirty && c.Test? && c.logged && !c.only && Undisturbed(c)
    requires t < |s.tree| && TargetName(s.tree, c.configured, c.argument) == s.tree[t].name
    requires forall i :: 0 <= i < |s.tree| && s.tree[i].Required() ==> i <= t
    requires c.green(t) && forall i: nat :: i <= t && s.tree[i].Required() ==> c.green(i)
    ensures var u := Run(Next(s, c), later);
      u.head == s.head && u.tree == s.tree ==> GateVerdict(u.log, Live(u.tree, u.head)) == Admitted
  {
    CleanClimbLogs(s, c, t);
    var n, e := Next(s, c), TestResult(s.tree[t].name, s.head, "");
    RunKeeps(n, later);
    var u := Run(n, later);
    assert u.log[|s.log|] == e;
    if u.head == s.head && u.tree == s.tree { ReachingAdmits(u.log, u.tree, u.head, e); }
  }

  /** Commands that leave the checkout where it is. */
  ghost predicate Stays(c: Command)
  {
    c.FailResult? || (c.Test? && forall i: nat :: c.during(i) == [])
  }

  lemma {:induction false} CommitKept(s: State, cs: seq<Command>)
    requires forall k :: 0 <= k < |cs| ==> Stays(cs[k])
    ensures var t := Run(s, cs); t.head == s.head && t.tree == s.tree
  {
    if cs != [] {
      var before, c := Run(s, cs[..|cs| - 1]), cs[|cs| - 1];
      CommitKept(s, cs[..|cs| - 1]);
      if c.Test? {
        Untouched(before, c.during, 1);
        if Target(before, c).Some? {
          var t := Target(before, c).value;
          Untouched(before, c.during, End(HaltOf(before, c, t), t));
        }
      }
    }
  }

  /**
   * After such a climb the gate admits at once, and goes on admitting over any runs and fail results, until the
   * checkout itself changes.
   */
  lemma StaysAdmitted(s: State, c: Command, t: nat, later: seq<Command>)
    requires Settled(s) && Valid(s.tree) && !s.dirty && c.Test? && c.logged && !c.only && Undisturbed(c)
    requires t < |s.tree| && TargetName(s.tree, c.configured, c.argument) == s.tree[t].name
    requires forall i :: 0 <= i < |s.tree| && s.tree[i].Required() ==> i <= t
    requires c.green(t) && forall i: nat :: i <= t && s.tree[i].Required() ==> c.green(i)
    requires forall k :: 0 <= k < |later| ==> Stays(later[k])
    ensures var u := Run(Next(s, c), later); GateVerdict(u.log, Live(u.tree, u.head)) == Admitted
  {
    CleanClimbLogs(s, c, t);
    CommitKept(Next(s, c), later);
    CleanClimbAdmits(s, c, t, later);
  }

  /** The default target is the highest required rung, so a bare --log run is always enough. */
  lemma DefaultTargetSuffices(p: Pyramid)
    requires Valid(p)
    ensures exists t :: 0 <= t < |p| && TargetName(p, "", None) == p[t].name
                     && p[t].Required() && forall i :: 0 <= i < |p| && p[i].Required() ==> i <= t
  {
    HighestRequiredIsTop(p);
  }

  /** The name is that of a rung above every required one. */
  predicate Above(p: Pyramid, name: string)
  {
    exists t :: 0 <= t < |p| && p[t].name == name && forall i :: 0 <= i < |p| && p[i].Required() ==> i < t
  }

  /** A configured default takes the target above the highest required rung exactly when it names such a rung. */
  lemma ConfiguredTarget(p: Pyramid, configured: string)
    requires Valid(p)
    ensures Above(p, TargetName(p, configured, None)) <==> configured != "" && Above(p, configured)
  {
    HighestRequiredIsTop(p);
    IndexOfFirst(p, configured);
    var top := HighestRequired(p).value;
    if t: nat :| t < |p| && p[t].name == p[top].name && t != top { NamesApart(p, t, top); }
  }
}
