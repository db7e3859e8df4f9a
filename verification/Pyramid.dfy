/** The test pyramid: running a rung, climbing, and folding logged results into the review verdict. */
module Pyramid {
  import opened Text
  import opened Sorting
  import opened Events

  /** The context a rung runs in: scripts to bring it up and down, either of them possibly blank, and health checks. */
  datatype Environment = Environment(up: string, checks: seq<string>, down: string)

  /** A rung with its script; an omitted `required` key means required. */
  datatype Level = Level(name: string, run: string, environment: Option<Environment>, requiredKey: Option<bool>)
  {
    predicate Required()
    {
      requiredKey != Some(false)
    }

    predicate HasUp()
    {
      environment.Some? && TrimSpace(environment.value.up) != ""
    }

    predicate HasDown()
    {
      environment.Some? && TrimSpace(environment.value.down) != ""
    }

    function HealthChecks(): seq<string>
    {
      if environment.Some? then environment.value.checks else []
    }

    /** What has to succeed for the rung to be green. */
    function Runs(): Scripts
    {
      Scripts(name, if HasUp() then Some(environment.value.up) else None, HealthChecks(), run)
    }
  }

  /** A named rung's scripts. Whether it is required and how its environment is torn down play no part. */
  datatype Scripts = Scripts(name: string, up: Option<string>, checks: seq<string>, run: string)

  type Pyramid = seq<Level>

  predicate Valid(p: Pyramid)
  {
    && (forall i, j :: 0 <= i < j < |p| ==> p[i].name != p[j].name)
    && exists i :: 0 <= i < |p| && p[i].Required()
  }

  // ----- One rung -----

  datatype Command = Up | Check(i: nat) | Body | Down

  datatype Verdict = Green | EnvironmentFault | Blocked | Red

  function FirstRed(n: nat, i: nat, ok: Command -> bool): nat
    requires i <= n
    decreases n - i
  {
    if i == n || !ok(Check(i)) then i else FirstRed(n, i + 1, ok)
  }

  function Checks(n: nat): seq<Command>
  {
    seq(n, i requires 0 <= i < n => Check(i))
  }

  /** The commands before teardown that a rung runs, and their verdict. */
  function Attempted(lv: Level, ok: Command -> bool): (seq<Command>, Verdict)
  {
    var up, n := if lv.HasUp() then [Up] else [], |lv.HealthChecks()|;
    if lv.HasUp() && !ok(Up) then (up, EnvironmentFault)
    else
      var red := FirstRed(n, 0, ok);
      if red < n then (up + Checks(red + 1), Blocked)
      else (up + Checks(n) + [Body], if ok(Body) then Green else Red)
  }

  /** Up, health checks, body; the teardown always comes last and its outcome is ignored. */
  method RunRung(lv: Level, ok: Command -> bool) returns (trace: seq<Command>, verdict: Verdict)
    ensures verdict == Attempted(lv, ok).1
    ensures trace == Attempted(lv, ok).0
                   + (if lv.environment.Some? && TrimSpace(lv.environment.value.down) != "" then [Down] else [])
  {
    trace, verdict := BeforeTeardown(lv, ok);
    if lv.HasDown() {
      trace := trace + [Down];
    }
  }

  method BeforeTeardown(lv: Level, ok: Command -> bool) returns (trace: seq<Command>, verdict: Verdict)
    ensures (trace, verdict) == Attempted(lv, ok)
  {
    trace := [];
    if lv.HasUp() {
      trace := [Up];
      if !ok(Up) {
        return trace, EnvironmentFault;
      }
    }
    ghost var up, n := trace, |lv.HealthChecks()|;
    for i := 0 to |lv.HealthChecks()|
      invariant trace == up + Checks(i)
      invariant FirstRed(n, 0, ok) == FirstRed(n, i, ok)
    {
      trace := trace + [Check(i)];
      assert Checks(i + 1) == Checks(i) + [Check(i)];
      assert trace == up + Checks(i + 1);
      if !ok(Check(i)) {
        assert FirstRed(n, i, ok) == i;
        return trace, Blocked;
      }
    }
    assert FirstRed(n, n, ok) == n;
    trace := trace + [Body];
    verdict := if ok(Body) then Green else Red;
  }

  lemma {:induction false} FirstRedSplits(n: nat, i: nat, ok: Command -> bool)
    requires i <= n
    ensures i <= FirstRed(n, i, ok) <= n
    ensures forall k :: i <= k < FirstRed(n, i, ok) ==> ok(Check(k))
    ensures FirstRed(n, i, ok) < n ==> !ok(Check(FirstRed(n, i, ok)))
    decreases n - i
  {
    if i < n && ok(Check(i)) { FirstRedSplits(n, i + 1, ok); }
  }

  /** A rung is required unless it says otherwise; it has an up script if its environment does and it is not blank. */
  lemma LevelExactly(lv: Level)
    ensures lv.Required() <==> lv.requiredKey.None? || lv.requiredKey.value
    ensures var r := lv.Runs();
      && r.name == lv.name && r.run == lv.run
      && (lv.environment == None ==> r.up == None && r.checks == [])
      && (lv.environment.Some? ==> r.checks == lv.environment.value.checks)
      && (lv.environment.Some? && TrimSpace(lv.environment.value.up) == "" ==> r.up == None)
      && (lv.environment.Some? && TrimSpace(lv.environment.value.up) != "" ==> r.up == Some(lv.environment.value.up))
  {
  }

  /** A rung is green exactly when everything it has, teardown aside, succeeded. */
  lemma GreenMeansAllPassed(lv: Level, ok: Command -> bool)
    ensures Attempted(lv, ok).1 == Green <==>
      && ok(Body) && (lv.Runs().up.Some? ==> ok(Up))
      && forall k: nat :: k < |lv.Runs().checks| ==> ok(Check(k))
    ensures Body in Attempted(lv, ok).0 <==> Attempted(lv, ok).1 in {Green, Red}
  {
    FirstRedSplits(|lv.HealthChecks()|, 0, ok);
  }

  /** Rungs that run the same scripts are green alike. */
  lemma SameScriptsSameGreen(a: Level, b: Level, ok: Command -> bool)
    requires a.Runs() == b.Runs()
    ensures Attempted(a, ok).1 == Green <==> Attempted(b, ok).1 == Green
  {
    GreenMeansAllPassed(a, ok);
    GreenMeansAllPassed(b, ok);
  }

  /** The order of the commands: up if there is one, then the checks from the first one on, then the body. */
  lemma AttemptedInOrder(lv: Level, ok: Command -> bool)
    ensures var ran, up := Attempted(lv, ok).0, if lv.Runs().up.Some? then 1 else 0;
      && up <= |ran| + 1 && (up == 1 ==> ran != [] && ran[0] == Up)
      && forall k :: up <= k < |ran| ==>
           ran[k] == if k - up < |lv.Runs().checks| then Check(k - up) else Body
    ensures |Attempted(lv, ok).0| <= (if lv.Runs().up.Some? then 1 else 0) + |lv.Runs().checks| + 1
  {
    FirstRedSplits(|lv.HealthChecks()|, 0, ok);
  }

  /** Who has to act on a red rung: infrastructure, a dependency that is not ready, or the code. */
  lemma VerdictMeans(lv: Level, ok: Command -> bool)
    ensures var (ran, verdict) := Attempted(lv, ok);
      && (verdict == EnvironmentFault <==> Up in ran && !ok(Up))
      && (verdict == Blocked <==> exists k :: Check(k) in ran && !ok(Check(k)))
      && (verdict == Red <==> Body in ran && !ok(Body))
  {
    var n := |lv.HealthChecks()|;
    FirstRedSplits(n, 0, ok);
    var red := FirstRed(n, 0, ok);
    if red < n { assert Checks(red + 1)[red] == Check(red); }
    forall k: nat ensures Check(k) in Checks(n) <==> k < n {
      if k < n { assert Checks(n)[k] == Check(k); }
    }
  }

  // ----- The climb -----

  function IndexOf(p: Pyramid, name: string): Option<nat>
  {
    if p == [] then None
    else if p[0].name == name then Some(0)
    else match IndexOf(p[1..], name) case Some(i) => Some(i + 1) case None => None
  }

  lemma {:induction false} IndexOfFirst(p: Pyramid, name: string)
    ensures match IndexOf(p, name)
      case Some(i) => i < |p| && p[i].name == name && forall j :: 0 <= j < i ==> p[j].name != name
      case None => forall j :: 0 <= j < |p| ==> p[j].name != name
  {
    if p != [] { IndexOfFirst(p[1..], name); }
  }

  method LevelsUpTo(p: Pyramid, target: string) returns (levels: Option<Pyramid>)
    ensures levels == match IndexOf(p, target) case Some(i) => (if i < |p| then Some(p[..i + 1]) else None) case None => None
  {
    IndexOfFirst(p, target);
    for i := 0 to |p|
      invariant forall j :: 0 <= j < i ==> p[j].name != target
    {
      if p[i].name == target {
        return Some(p[..i + 1]);
      }
    }
    levels := None;
  }

  function HighestRequired(p: Pyramid): Option<nat>
  {
    if p == [] then None
    else if p[|p| - 1].Required() then Some(|p| - 1)
    else HighestRequired(p[..|p| - 1])
  }

  lemma {:induction false} HighestRequiredIsTop(p: Pyramid)
    ensures match HighestRequired(p)
      case Some(i) => i < |p| && p[i].Required() && forall j :: i < j < |p| ==> !p[j].Required()
      case None => forall j :: 0 <= j < |p| ==> !p[j].Required()
  {
    if p != [] { HighestRequiredIsTop(p[..|p| - 1]); }
  }

  /** The rung a run climbs to: the argument, else a configured rung that exists, else the top required one. */
  function TargetName(p: Pyramid, configured: string, argument: Option<string>): string
  {
    match argument
    case Some(name) => name
    case None =>
      if configured != "" && IndexOf(p, configured).Some? then configured
      else
        match HighestRequired(p)
        case Some(i) => if i < |p| then p[i].name else ""
        case None => ""
  }

  /** An explicit rung wins, then a configured one that exists, then the highest required one. */
  lemma TargetExactly(p: Pyramid, configured: string, argument: Option<string>)
    requires Valid(p)
    ensures var name, known := TargetName(p, configured, argument), exists i :: 0 <= i < |p| && p[i].name == configured;
      && (argument.Some? ==> name == argument.value)
      && (argument.None? && configured != "" && known ==> name == configured)
      && (argument.None? && !(configured != "" && known) ==>
            exists i :: 0 <= i < |p| && p[i].name == name && p[i].Required()
                     && forall j :: i < j < |p| ==> !p[j].Required())
  {
    IndexOfFirst(p, configured);
    HighestRequiredIsTop(p);
  }

  /** The first rung that is required and not green; the climb stops there. */
  function Halt(levels: Pyramid, green: nat -> bool, i: nat): nat
    requires i <= |levels|
    decreases |levels| - i
  {
    if i == |levels| || (levels[i].Required() && !green(i)) then i else Halt(levels, green, i + 1)
  }

  /** The advisory rungs below i that were red. */
  function AdvisoryReds(levels: Pyramid, green: nat -> bool, i: nat): seq<string>
    requires i <= |levels|
  {
    if i == 0 then []
    else AdvisoryReds(levels, green, i - 1) + (if green(i - 1) || levels[i - 1].Required() then [] else [levels[i - 1].name])
  }

  function RedBelow(levels: Pyramid, green: nat -> bool, n: nat): set<nat>
    requires n <= |levels|
  {
    set i: nat | i < n && !levels[i].Required() && !green(i)
  }

  /** What is reported: the names of the advisory rungs below n that were red, in order. */
  lemma {:induction false} AdvisoryRedsPick(levels: Pyramid, names: seq<string>, green: nat -> bool, n: nat)
    requires n <= |levels| == |names| && forall i :: 0 <= i < |names| ==> names[i] == levels[i].name
    ensures Picks(names[..n], RedBelow(levels, green, n), AdvisoryReds(levels, green, n))
  {
    if n == 0 {
      assert RedBelow(levels, green, 0) == {};
      PicksNone(names[..0]);
    } else {
      AdvisoryRedsPick(levels, names, green, n - 1);
      var before, after := RedBelow(levels, green, n - 1), RedBelow(levels, green, n);
      var taken := !levels[n - 1].Required() && !green(n - 1);
      assert names[..n] == names[..n - 1] + [names[n - 1]];
      assert after == if taken then before + {n - 1} else before;
      PicksStep(names[..n - 1], names[n - 1], before, after, taken, AdvisoryReds(levels, green, n - 1));
      var rest := AdvisoryReds(levels, green, n - 1);
      assert AdvisoryReds(levels, green, n) == if taken then rest + [names[n - 1]] else rest;
    }
  }

  datatype Climbed = Climbed(targetGreen: bool, advisoryReds: seq<string>, haltedAt: Option<nat>)

  method Climb(levels: Pyramid, green: nat -> bool) returns (c: Climbed)
    ensures var h := Halt(levels, green, 0);
      && h <= |levels|
      && c == Climbed(h == |levels| && levels != [] && green(|levels| - 1), AdvisoryReds(levels, green, h),
                      if h < |levels| then Some(h) else None)
  {
    var targetGreen, advisoryReds := false, [];
    for i := 0 to |levels|
      invariant advisoryReds == AdvisoryReds(levels, green, i)
      invariant Halt(levels, green, 0) == Halt(levels, green, i)
      invariant targetGreen == (i == |levels| && i > 0 && green(i - 1))
    {
      if green(i) {
        if i == |levels| - 1 {
          targetGreen := true;
        }
        continue;
      }
      if levels[i].Required() {
        return Climbed(false, advisoryReds, Some(i));
      }
      advisoryReds := advisoryReds + [levels[i].name];
    }
    c := Climbed(targetGreen, advisoryReds, None);
  }

  /** A climb that reached its end proves every required rung on the way. */
  lemma {:induction false} HaltMeans(levels: Pyramid, green: nat -> bool, i: nat)
    requires i <= |levels|
    ensures var h := Halt(levels, green, i);
      && i <= h <= |levels|
      && (forall k :: i <= k < h && levels[k].Required() ==> green(k))
      && (h < |levels| ==> levels[h].Required() && !green(h))
    decreases |levels| - i
  {
    if i < |levels| && !(levels[i].Required() && !green(i)) { HaltMeans(levels, green, i + 1); }
  }

  // ----- The review verdict -----

  datatype Result = Result(rung: string, commit: string)

  /** Some result at this commit names the rung at i or one above it. */
  predicate Covered(p: Pyramid, results: seq<Result>, head: string, i: nat)
  {
    exists k, j :: 0 <= k < |results| && i <= j < |p| && results[k] == Result(p[j].name, head)
  }

  function Select(p: Pyramid, results: seq<Result>, head: string, covered: bool, n: nat): seq<Level>
    requires n <= |p|
  {
    if n == 0 then []
    else
      Select(p, results, head, covered, n - 1)
      + (if p[n - 1].Required() && Covered(p, results, head, n - 1) == covered then [p[n - 1]] else [])
  }

  /** The places of the required rungs that are covered, or of those that are not. */
  function RequiredAt(p: Pyramid, results: seq<Result>, head: string, covered: bool, n: nat): set<nat>
    requires n <= |p|
  {
    set i: nat | i < n && p[i].Required() && Covered(p, results, head, i) == covered
  }

  /** The selection holds those rungs, each once and in the pyramid's order. */
  lemma {:induction false} SelectPicks(p: Pyramid, results: seq<Result>, head: string, covered: bool, n: nat)
    requires n <= |p|
    ensures Picks(p[..n], RequiredAt(p, results, head, covered, n), Select(p, results, head, covered, n))
  {
    if n == 0 {
      assert RequiredAt(p, results, head, covered, 0) == {};
      PicksNone(p[..0]);
    } else {
      SelectPicks(p, results, head, covered, n - 1);
      var before, after := RequiredAt(p, results, head, covered, n - 1), RequiredAt(p, results, head, covered, n);
      var taken := p[n - 1].Required() && Covered(p, results, head, n - 1) == covered;
      assert p[..n] == p[..n - 1] + [p[n - 1]];
      assert after == if taken then before + {n - 1} else before;
      PicksStep(p[..n - 1], p[n - 1], before, after, taken, Select(p, results, head, covered, n - 1));
      var rest := Select(p, results, head, covered, n - 1);
      assert Select(p, results, head, covered, n) == if taken then rest + [p[n - 1]] else rest;
    }
  }

  /** The two lists of a refusal: the required rungs that no result at this commit covers, and those that one does. */
  lemma RefusalLists(log: seq<Event>, p: Pyramid, head: string)
    ensures var g := GateVerdict(log, Live(p, head));
      g.Refused? ==>
        && Picks(p, RequiredAt(p, Results(log), head, false, |p|), g.outstanding)
        && Picks(p, RequiredAt(p, Results(log), head, true, |p|), g.satisfied)
        && g.outstanding != []
  {
    SelectPicks(p, Results(log), head, false, |p|);
    SelectPicks(p, Results(log), head, true, |p|);
    assert p[..|p|] == p;
  }

  /** There is a verdict exactly when a live checkout with a pyramid was found, and it is one of two. */
  lemma GatedExactly(log: seq<Event>, at: Checkout)
    ensures GateVerdict(log, at) == NotGated <==> !at.Live?
    ensures at.Live? ==> (GateVerdict(log, at) == Admitted <==>
      forall i :: 0 <= i < |at.tree| && at.tree[i].Required() ==> Covered(at.tree, Results(log), at.head, i))
  {
    if at.Live? { SelectEmpty(at.tree, Results(log), at.head, |at.tree|); }
  }

  method IndexNames(p: Pyramid) returns (index: map<string, nat>)
    requires Valid(p)
    ensures forall name :: name in index ==> index[name] < |p| && p[index[name]].name == name
    ensures forall j :: 0 <= j < |p| ==> p[j].name in index && index[p[j].name] == j
  {
    index := map[];
    for i := 0 to |p|
      invariant forall name :: name in index ==> index[name] < i && p[index[name]].name == name
      invariant forall j :: 0 <= j < i ==> p[j].name in index && index[p[j].name] == j
    {
      index := index[p[i].name := i];
    }
  }

  /** The highest rung that a result at this commit names, or -1. */
  method HighestNamed(p: Pyramid, results: seq<Result>, head: string) returns (maxIdx: int)
    requires Valid(p)
    ensures -1 <= maxIdx < |p|
    ensures forall i :: 0 <= i < |p| ==> (Covered(p, results, head, i) <==> i <= maxIdx)
  {
    var index := IndexNames(p);
    maxIdx := -1;
    for k := 0 to |results|
      invariant -1 <= maxIdx < |p|
      invariant maxIdx >= 0 ==> exists m :: 0 <= m < k && results[m] == Result(p[maxIdx].name, head)
      invariant forall m, j :: 0 <= m < k && 0 <= j < |p| && results[m] == Result(p[j].name, head) ==> j <= maxIdx
    {
      var r := results[k];
      if r.commit == head && r.rung in index && index[r.rung] > maxIdx {
        maxIdx := index[r.rung];
        assert results[k] == Result(p[maxIdx].name, head);
      }
    }
  }

  method RequiredStatus(p: Pyramid, results: seq<Result>, head: string)
    returns (satisfied: seq<Level>, outstanding: seq<Level>)
    requires Valid(p)
    ensures satisfied == Select(p, results, head, true, |p|)
    ensures outstanding == Select(p, results, head, false, |p|)
    ensures Picks(p, RequiredAt(p, results, head, true, |p|), satisfied)
    ensures Picks(p, RequiredAt(p, results, head, false, |p|), outstanding)
  {
    SelectPicks(p, results, head, true, |p|);
    SelectPicks(p, results, head, false, |p|);
    assert p[..|p|] == p;
    var maxIdx := HighestNamed(p, results, head);
    satisfied, outstanding := [], [];
    for i := 0 to |p|
      invariant satisfied == Select(p, results, head, true, i)
      invariant outstanding == Select(p, results, head, false, i)
    {
      if !p[i].Required() {
        continue;
      }
      if i <= maxIdx {
        satisfied := satisfied + [p[i]];
      } else {
        outstanding := outstanding + [p[i]];
      }
    }
  }

  predicate CountsAsGreen(e: Event)
  {
    e.kind == "test-result" && e.outcome != "fail"
  }

  function Results(log: seq<Event>): seq<Result>
  {
    if log == [] then []
    else
      var e := log[|log| - 1];
      Results(log[..|log| - 1]) + (if CountsAsGreen(e) then [Result(e.rung, e.commit)] else [])
  }

  /** What the gate finds when it looks for the attempt's checkout. */
  datatype Checkout = NoRepo | NotAGitBase | NoLiveTree | NoPyramid | Live(tree: Pyramid, head: string)

  datatype Gate = NotGated | Admitted | Refused(outstanding: seq<Level>, satisfied: seq<Level>)

  function GateVerdict(log: seq<Event>, at: Checkout): Gate
  {
    if !at.Live? then NotGated
    else
      var results := Results(log);
      var outstanding := Select(at.tree, results, at.head, false, |at.tree|);
      if outstanding == [] then Admitted else Refused(outstanding, Select(at.tree, results, at.head, true, |at.tree|))
  }

  method ReviewGate(log: seq<Event>, at: Checkout) returns (g: Gate)
    requires at.Live? ==> Valid(at.tree)
    ensures g == GateVerdict(log, at)
  {
    match at {
      case NoRepo => return NotGated;
      case NotAGitBase => return NotGated;
      case NoLiveTree => return NotGated;
      case NoPyramid => return NotGated;
      case Live(tree, head) =>
        var results := [];
        for i := 0 to |log|
          invariant results == Results(log[..i])
        {
          assert log[..i + 1][..i] == log[..i];
          if log[i].kind == "test-result" && log[i].outcome != "fail" {
            results := results + [Result(log[i].rung, log[i].commit)];
          }
        }
        assert log[..|log|] == log;
        var satisfied, outstanding := RequiredStatus(tree, results, head);
        g := if |outstanding| == 0 then Admitted else Refused(outstanding, satisfied);
    }
  }

  /** The gate admits exactly when every required rung is covered by a result at this commit. */
  lemma {:induction false} SelectEmpty(p: Pyramid, results: seq<Result>, head: string, n: nat)
    requires n <= |p|
    ensures Select(p, results, head, false, n) == [] <==>
            forall i :: 0 <= i < n && p[i].Required() ==> Covered(p, results, head, i)
  {
    if n > 0 { SelectEmpty(p, results, head, n - 1); }
  }

  lemma {:induction false} ResultsAreLogged(log: seq<Event>, r: Result)
    ensures r in Results(log) <==>
            exists i :: 0 <= i < |log| && CountsAsGreen(log[i]) && r == Result(log[i].rung, log[i].commit)
    ensures forall i :: 0 <= i < |log| ==>
              (CountsAsGreen(log[i]) <==> log[i].kind == "test-result" && log[i].outcome != "fail")
  {
    if log != [] {
      ResultsAreLogged(log[..|log| - 1], r);
      if r in Results(log[..|log| - 1]) {
        var i :| 0 <= i < |log| - 1 && CountsAsGreen(log[..|log| - 1][i])
               && r == Result(log[..|log| - 1][i].rung, log[..|log| - 1][i].commit);
        assert log[i] == log[..|log| - 1][i];
      }
      if exists i :: 0 <= i < |log| && CountsAsGreen(log[i]) && r == Result(log[i].rung, log[i].commit) {
        var i :| 0 <= i < |log| && CountsAsGreen(log[i]) && r == Result(log[i].rung, log[i].commit);
        if i < |log| - 1 { assert log[..|log| - 1][i] == log[i]; }
      }
    }
  }
}
