/** The knowledge fold: which facts of a log are live, who retired the others, and a fact's history. */
module Knowledge {
  import opened Text
  import opened Events
  import opened Graph
  import opened Sorting

  datatype Fact = Fact(event: Event, live: bool, supersededBy: int)

  datatype View = View(facts: seq<Fact>, byNum: map<int, Fact>, retires: Adjacency<int>)

  /** The numbers an event supersedes: its explicit list and, for a resolution, its refs. */
  function RetiredBy(e: Event): seq<int>
  {
    e.supersedes + (if e.kind == "resolution" then e.refs else [])
  }

  // ----- What the fold means -----

  /** The number of the first event that retires t, or zero. */
  function Retirer(log: seq<Event>, t: int): int
  {
    if log == [] then 0
    else
      var init, last := log[..|log| - 1], log[|log| - 1];
      if Listed(init, t) then Retirer(init, t) else if t in RetiredBy(last) then last.num else 0
  }

  predicate Listed(log: seq<Event>, t: int)
  {
    exists i :: 0 <= i < |log| && t in RetiredBy(log[i])
  }

  /** Everything the events numbered s retire, in log order. */
  function Edges(log: seq<Event>, s: int): seq<int>
  {
    if log == [] then []
    else
      var last := log[|log| - 1];
      Edges(log[..|log| - 1], s) + (if last.num == s then RetiredBy(last) else [])
  }

  function FactOf(log: seq<Event>, e: Event): Fact
  {
    var who := Retirer(log, e.num);
    Fact(e, who == 0, who)
  }

  /** The view agrees with the log; among events that share a number the last one is indexed. */
  ghost predicate Folds(log: seq<Event>, v: View)
  {
    && |v.facts| == |log|
    && (forall i :: 0 <= i < |log| ==> v.facts[i] == FactOf(log, log[i]))
    && (forall s :: Successors(v.retires, s) == Edges(log, s))
    && (forall s :: s in v.byNum <==> exists i :: 0 <= i < |log| && log[i].num == s)
    && (forall s :: s in v.byNum ==> v.byNum[s].event.num == s)
    && (forall i: nat :: LastOfNumber(log, i, |log|) ==> v.byNum[log[i].num] == v.facts[i])
  }

  /** The first pass: who retires whom, and the earliest event that retires each number. */
  method Retirements(log: seq<Event>) returns (retires: map<int, seq<int>>, supersededBy: map<int, int>)
    ensures AgreesOn(log, retires, supersededBy)
  {
    retires, supersededBy := map[], map[];
    assert AgreesOn(log[..0], retires, supersededBy);
    for i := 0 to |log|
      invariant AgreesOn(log[..i], retires, supersededBy)
    {
      var more, by1 := RetireOne(log[i], retires, supersededBy);
      OneMoreAgrees(log[..i], log[i], retires, supersededBy, more, by1);
      TakeOneMore(log, i);
      retires, supersededBy := more, by1;
    }
    assert log[..|log|] == log;
  }

  /** The two maps say what the log's edges are and who retired each number first. */
  ghost predicate AgreesOn(log: seq<Event>, retires: map<int, seq<int>>, supersededBy: map<int, int>)
  {
    && (forall s :: Successors(retires, s) == Edges(log, s))
    && (forall t :: t in supersededBy <==> Listed(log, t))
    && (forall t :: t in supersededBy ==> supersededBy[t] == Retirer(log, t))
  }

  lemma OneMoreAgrees(log: seq<Event>, e: Event, retires: map<int, seq<int>>, supersededBy: map<int, int>,
                      more: map<int, seq<int>>, by1: map<int, int>)
    requires AgreesOn(log, retires, supersededBy)
    requires Retired(more, retires, e.num, RetiredBy(e)) && FirstRetired(by1, supersededBy, e.num, RetiredBy(e))
    ensures AgreesOn(log + [e], more, by1)
  {
    OneMoreEvent(log, e);
  }

  lemma TakeOneMore(log: seq<Event>, i: nat)
    requires i < |log|
    ensures log[..i + 1] == log[..i] + [log[i]]
  {
  }

  /** The edge lists with some more targets of one event. */
  ghost predicate Retired(now: map<int, seq<int>>, before: map<int, seq<int>>, num: int, targets: seq<int>)
  {
    forall s :: Successors(now, s) == Successors(before, s) + (if s == num then targets else [])
  }

  /** The retirers with one event's targets added where nothing retired them before. */
  ghost predicate FirstRetired(now: map<int, int>, before: map<int, int>, num: int, targets: seq<int>)
  {
    && (forall t :: t in now <==> t in before || t in targets)
    && (forall t :: t in now ==> now[t] == if t in before then before[t] else num)
  }

  lemma RetiredOneMore(now: map<int, seq<int>>, before: map<int, seq<int>>, num: int, targets: seq<int>, t: int)
    requires Retired(now, before, num, targets)
    ensures Retired(now[num := Successors(now, num) + [t]], before, num, targets + [t])
  {
  }

  lemma FirstRetiredOneMore(now: map<int, int>, before: map<int, int>, num: int, targets: seq<int>, t: int)
    requires FirstRetired(now, before, num, targets)
    ensures FirstRetired(if t in now then now else now[t := num], before, num, targets + [t])
  {
  }

  method RetireOne(e: Event, retires0: map<int, seq<int>>, by0: map<int, int>)
    returns (retires: map<int, seq<int>>, supersededBy: map<int, int>)
    ensures Retired(retires, retires0, e.num, RetiredBy(e)) && FirstRetired(supersededBy, by0, e.num, RetiredBy(e))
  {
    retires, supersededBy := retires0, by0;
    var targets := RetiredBy(e);
    for k := 0 to |targets|
      invariant Retired(retires, retires0, e.num, targets[..k])
      invariant FirstRetired(supersededBy, by0, e.num, targets[..k])
    {
      assert targets[..k + 1] == targets[..k] + [targets[k]];
      RetiredOneMore(retires, retires0, e.num, targets[..k], targets[k]);
      FirstRetiredOneMore(supersededBy, by0, e.num, targets[..k], targets[k]);
      retires := retires[e.num := Successors(retires, e.num) + [targets[k]]];
      if targets[k] !in supersededBy {
        supersededBy := supersededBy[targets[k] := e.num];
      }
    }
    assert targets[..|targets|] == targets;
  }

  /** Event i is the last of the first n events to carry its number. */
  ghost predicate LastOfNumber(log: seq<Event>, i: nat, n: nat)
    requires n <= |log|
  {
    i < n && forall j :: i < j < n ==> log[j].num != log[i].num
  }

  method Indexed(log: seq<Event>, facts: seq<Fact>) returns (byNum: map<int, Fact>)
    requires |facts| == |log| && forall i :: 0 <= i < |log| ==> facts[i].event == log[i]
    ensures forall s :: s in byNum <==> exists i :: 0 <= i < |log| && log[i].num == s
    ensures forall i: nat :: LastOfNumber(log, i, |log|) ==> byNum[log[i].num] == facts[i]
    ensures forall s :: s in byNum ==> byNum[s].event.num == s
  {
    byNum := map[];
    for i := 0 to |log|
      invariant forall s :: s in byNum <==> exists j :: 0 <= j < i && log[j].num == s
      invariant forall j: nat :: LastOfNumber(log, j, i) ==> byNum[log[j].num] == facts[j]
      invariant forall s :: s in byNum ==> byNum[s].event.num == s
    {
      ghost var before := byNum;
      byNum := byNum[facts[i].event.num := facts[i]];
      forall j: nat | LastOfNumber(log, j, i + 1)
        ensures byNum[log[j].num] == facts[j]
      {
        if j < i { assert LastOfNumber(log, j, i) && before[log[j].num] == facts[j]; }
      }
    }
  }

  lemma WhoRetired(log: seq<Event>, retires: map<int, seq<int>>, supersededBy: map<int, int>, t: int)
    requires AgreesOn(log, retires, supersededBy)
    ensures (if t in supersededBy then supersededBy[t] else 0) == Retirer(log, t)
  {
    UnlistedHasNoRetirer(log, t);
  }

  /** The facts are those of these events. */
  ghost predicate FactsOf(log: seq<Event>, events: seq<Event>, facts: seq<Fact>)
  {
    |facts| == |events| && forall i :: 0 <= i < |events| ==> facts[i] == FactOf(log, events[i])
  }

  lemma OneMoreFact(log: seq<Event>, events: seq<Event>, facts: seq<Fact>, i: nat)
    requires i < |events| && FactsOf(log, events[..i], facts)
    ensures FactsOf(log, events[..i + 1], facts + [FactOf(log, events[i])])
  {
  }

  /** The second pass: one fact for each event. */
  method Facts(log: seq<Event>, ghost retires: map<int, seq<int>>, supersededBy: map<int, int>)
    returns (facts: seq<Fact>)
    requires AgreesOn(log, retires, supersededBy)
    ensures FactsOf(log, log, facts)
  {
    facts := [];
    for i := 0 to |log|
      invariant FactsOf(log, log[..i], facts)
    {
      var who := if log[i].num in supersededBy then supersededBy[log[i].num] else 0;
      WhoRetired(log, retires, supersededBy, log[i].num);
      OneMoreFact(log, log, facts, i);
      facts := facts + [Fact(log[i], who == 0, who)];
    }
    assert log[..|log|] == log;
  }

  method Fold(log: seq<Event>) returns (v: View)
    ensures Folds(log, v)
  {
    var retires, supersededBy := Retirements(log);
    var facts := Facts(log, retires, supersededBy);
    var byNum := Indexed(log, facts);
    v := View(facts, byNum, retires);
  }

  lemma OneMoreEvent(log: seq<Event>, e: Event)
    ensures forall s :: Edges(log + [e], s) == Edges(log, s) + (if e.num == s then RetiredBy(e) else [])
    ensures forall t :: Listed(log + [e], t) <==> Listed(log, t) || t in RetiredBy(e)
    ensures forall t :: Retirer(log + [e], t) ==
                        if Listed(log, t) then Retirer(log, t) else if t in RetiredBy(e) then e.num else 0
  {
    assert (log + [e])[..|log|] == log;
    forall t
      ensures Listed(log + [e], t) <==> Listed(log, t) || t in RetiredBy(e)
    {
      if Listed(log, t) {
        var i :| 0 <= i < |log| && t in RetiredBy(log[i]);
        assert (log + [e])[i] == log[i];
      }
      if t in RetiredBy(e) { assert (log + [e])[|log|] == e; }
    }
  }

  lemma {:induction false} UnlistedHasNoRetirer(log: seq<Event>, t: int)
    ensures !Listed(log, t) ==> Retirer(log, t) == 0
  {
    if log != [] && !Listed(log, t) {
      assert t !in RetiredBy(log[|log| - 1]);
    }
  }

  // ----- Folding one more event -----

  ghost predicate Ascending(log: seq<Event>)
  {
    && (forall i :: 0 <= i < |log| ==> log[i].num >= 1)
    && (forall i, j :: 0 <= i < j < |log| ==> log[i].num < log[j].num)
  }

  /** Every event names older events only, whether they are there or not. */
  ghost predicate NamesOlder(log: seq<Event>)
  {
    forall i, t :: 0 <= i < |log| && t in RetiredBy(log[i]) ==> t < log[i].num
  }

  /** A recorded retirer never changes and no retired fact comes back; only e's own targets change. */
  lemma FoldChangesOnlyTargets(log: seq<Event>, e: Event, f: Event)
    ensures var was, now := FactOf(log, f), FactOf(log + [e], f);
      && (was.supersededBy != 0 ==> now == was)
      && (!was.live ==> !now.live)
      && (now != was ==> f.num in RetiredBy(e) && !Listed(log, f.num) && now.supersededBy == e.num)
      && (f.num in RetiredBy(e) && !Listed(log, f.num) ==> now.supersededBy == e.num)
  {
    OneMoreEvent(log, e);
    UnlistedHasNoRetirer(log, f.num);
  }

  /** The number n is that of the earliest event that retires t, or zero if there is none. */
  ghost predicate Earliest(log: seq<Event>, t: int, n: int)
  {
    && (Listed(log, t) <==> n != 0)
    && (Listed(log, t) ==> exists i :: 0 <= i < |log| && log[i].num == n && t in RetiredBy(log[i]))
    && forall i :: 0 <= i < |log| && t in RetiredBy(log[i]) ==> n <= log[i].num
  }

  lemma EarliestStays(log: seq<Event>, e: Event, t: int, n: int)
    requires Ascending(log + [e]) && Earliest(log, t, n) && Listed(log, t)
    ensures Earliest(log + [e], t, n)
  {
    var more := log + [e];
    assert forall i :: 0 <= i < |log| ==> more[i] == log[i];
    var i :| 0 <= i < |log| && log[i].num == n && t in RetiredBy(log[i]);
    assert more[i].num == n && t in RetiredBy(more[i]) && n < more[|log|].num;
  }

  lemma EarliestIsNew(log: seq<Event>, e: Event, t: int)
    requires Ascending(log + [e]) && !Listed(log, t)
    ensures Earliest(log + [e], t, if t in RetiredBy(e) then e.num else 0)
  {
    var more := log + [e];
    assert more[|log|] == e && forall i :: 0 <= i < |log| ==> more[i] == log[i];
  }

  /** SupersededBy is the earliest event that retires the fact, and zero only if none does. */
  lemma {:induction false} RetirerIsEarliest(log: seq<Event>, t: int)
    requires Ascending(log)
    ensures Earliest(log, t, Retirer(log, t))
  {
    if log != [] {
      var init, last := log[..|log| - 1], log[|log| - 1];
      RetirerIsEarliest(init, t);
      assert log == init + [last];
      if Listed(init, t) { EarliestStays(init, last, t, Retirer(init, t)); } else { EarliestIsNew(init, last, t); }
    }
  }

  function LiveOf(facts: seq<Fact>): seq<Fact>
  {
    if facts == [] then []
    else LiveOf(facts[..|facts| - 1]) + (if facts[|facts| - 1].live then [facts[|facts| - 1]] else [])
  }

  /** The cold-start index: the live facts in log order. */
  method Live(v: View) returns (out: seq<Fact>)
    ensures out == LiveOf(v.facts)
  {
    out := [];
    for i := 0 to |v.facts|
      invariant out == LiveOf(v.facts[..i])
    {
      assert v.facts[..i + 1][..i] == v.facts[..i];
      if v.facts[i].live {
        out := out + [v.facts[i]];
      }
    }
    assert v.facts[..|v.facts|] == v.facts;
  }

  function EscalationsOf(facts: seq<Fact>): seq<Fact>
  {
    if facts == [] then []
    else
      var last := facts[|facts| - 1];
      EscalationsOf(facts[..|facts| - 1]) + (if last.live && last.event.kind == "escalation" then [last] else [])
  }

  function LivePlaces(facts: seq<Fact>): set<nat>
  {
    set i: nat | i < |facts| && facts[i].live
  }

  lemma {:induction false} LivePicks(facts: seq<Fact>)
    ensures Picks(facts, LivePlaces(facts), LiveOf(facts))
  {
    if facts == [] {
      assert LivePlaces(facts) == {};
      PicksNone(facts);
    } else {
      var n := |facts| - 1;
      var init, x := facts[..n], facts[n];
      LivePicks(init);
      assert facts == init + [x];
      assert LivePlaces(facts) == if x.live then LivePlaces(init) + {n} else LivePlaces(init);
      PicksStep(init, x, LivePlaces(init), LivePlaces(facts), x.live, LiveOf(init));
      assert LiveOf(facts) == if x.live then LiveOf(init) + [x] else LiveOf(init);
    }
  }

  function OpenPlaces(facts: seq<Fact>): set<nat>
  {
    set i: nat | i < |facts| && facts[i].live && facts[i].event.kind == "escalation"
  }

  lemma {:induction false} EscalationsPick(facts: seq<Fact>)
    ensures Picks(facts, OpenPlaces(facts), EscalationsOf(facts))
  {
    if facts == [] {
      assert OpenPlaces(facts) == {};
      PicksNone(facts);
    } else {
      var n := |facts| - 1;
      var init, x := facts[..n], facts[n];
      var taken := x.live && x.event.kind == "escalation";
      EscalationsPick(init);
      assert facts == init + [x];
      assert OpenPlaces(facts) == if taken then OpenPlaces(init) + {n} else OpenPlaces(init);
      PicksStep(init, x, OpenPlaces(init), OpenPlaces(facts), taken, EscalationsOf(init));
      assert EscalationsOf(facts) == if taken then EscalationsOf(init) + [x] else EscalationsOf(init);
    }
  }

  method LiveEscalations(v: View) returns (out: seq<Fact>)
    ensures out == EscalationsOf(v.facts)
  {
    var live := Live(v);
    out := [];
    for i := 0 to |live|
      invariant out == EscalationsOf(live[..i])
    {
      assert live[..i + 1][..i] == live[..i];
      LiveOfIsLive(v.facts, i);
      if live[i].event.kind == "escalation" {
        out := out + [live[i]];
      }
    }
    assert live[..|live|] == live;
    EscalationsAreLive(v.facts);
  }

  lemma {:induction false} LiveOfIsLive(facts: seq<Fact>, i: nat)
    requires i < |LiveOf(facts)|
    ensures LiveOf(facts)[i].live
  {
    if i < |LiveOf(facts[..|facts| - 1])| { LiveOfIsLive(facts[..|facts| - 1], i); }
  }

  lemma {:induction false} EscalationsAreLive(facts: seq<Fact>)
    ensures EscalationsOf(LiveOf(facts)) == EscalationsOf(facts)
  {
    if facts != [] {
      var init, last := facts[..|facts| - 1], facts[|facts| - 1];
      EscalationsAreLive(init);
      EscalationsAppend(LiveOf(init), last);
      assert LiveOf(init) + [] == LiveOf(init) && EscalationsOf(init) + [] == EscalationsOf(init);
    }
  }

  lemma EscalationsAppend(facts: seq<Fact>, f: Fact)
    ensures EscalationsOf(facts + [f]) ==
            EscalationsOf(facts) + (if f.live && f.event.kind == "escalation" then [f] else [])
  {
    assert (facts + [f])[..|facts|] == facts;
  }

  /** The numbers of the live facts among the first n events. */
  ghost function LiveAmong(log: seq<Event>, n: nat): set<int>
    requires n <= |log|
  {
    set i | 0 <= i < n && Retirer(log, log[i].num) == 0 :: log[i].num
  }

  ghost function LiveNums(log: seq<Event>): set<int>
  {
    LiveAmong(log, |log|)
  }

  ghost function Targets(e: Event): set<int>
  {
    set t | t in RetiredBy(e)
  }

  ghost function AllFacts(log: seq<Event>): seq<Fact>
  {
    seq(|log|, i requires 0 <= i < |log| => FactOf(log, log[i]))
  }

  lemma FoldedFacts(log: seq<Event>, v: View)
    requires Folds(log, v)
    ensures v.facts == AllFacts(log)
  {
  }

  lemma LiveAmongNext(log: seq<Event>, n: nat)
    requires Ascending(log) && n < |log|
    ensures LiveAmong(log, n + 1) ==
            LiveAmong(log, n) + (if Retirer(log, log[n].num) == 0 then {log[n].num} else {})
    ensures log[n].num !in LiveAmong(log, n)
  {
  }

  lemma {:induction false} CountLive(log: seq<Event>, n: nat)
    requires Ascending(log) && n <= |log|
    ensures |LiveOf(AllFacts(log)[..n])| == |LiveAmong(log, n)|
  {
    if n > 0 {
      CountLive(log, n - 1);
      var facts := AllFacts(log)[..n];
      assert facts[..n - 1] == AllFacts(log)[..n - 1];
      LiveAmongNext(log, n - 1);
    }
  }

  lemma LiveMember(log: seq<Event>, s: int)
    ensures s in LiveNums(log) <==> Retirer(log, s) == 0 && exists i :: 0 <= i < |log| && log[i].num == s
  {
  }

  lemma LiveStep(log: seq<Event>, e: Event, s: int)
    requires Ascending(log) && NamesOlder(log + [e]) && s != e.num && e.num != 0
    ensures s in LiveNums(log + [e]) <==> s in LiveNums(log) && s !in RetiredBy(e)
  {
    var more := log + [e];
    assert more[|log|] == e && forall i :: 0 <= i < |log| ==> more[i] == log[i];
    OneMoreEvent(log, e);
    RetirerIsEarliest(log, s);
    LiveMember(log, s);
    LiveMember(more, s);
  }

  /** The live set after one more event: its targets leave, it enters. */
  lemma LiveSetStep(log: seq<Event>, e: Event)
    requires Ascending(log + [e]) && NamesOlder(log + [e])
    ensures LiveNums(log + [e]) == LiveNums(log) - Targets(e) + {e.num}
  {
    assert (log + [e])[|log|] == e && forall i :: 0 <= i < |log| ==> (log + [e])[i] == log[i];
    NewestIsLive(log, e);
    forall s | s != e.num
      ensures s in LiveNums(log + [e]) <==> s in LiveNums(log) && s !in Targets(e)
    {
      LiveStep(log, e, s);
    }
  }

  lemma NewestIsLive(log: seq<Event>, e: Event)
    requires Ascending(log + [e]) && NamesOlder(log + [e])
    ensures Retirer(log + [e], e.num) == 0 && e.num in LiveNums(log + [e]) && e.num !in LiveNums(log)
    ensures e.num !in Targets(e)
  {
    var more := log + [e];
    assert more[|log|] == e && forall i :: 0 <= i < |log| ==> more[i] == log[i];
    assert forall i :: 0 <= i < |more| ==> e.num !in RetiredBy(more[i]);
    UnlistedHasNoRetirer(more, e.num);
  }

  lemma CountReplaced(live: set<int>, targets: set<int>, e: int)
    requires e !in live
    ensures |live - targets + {e}| == |live| + 1 - |live * targets|
  {
    assert live == (live - targets) + live * targets;
  }

  lemma CountAllLive(log: seq<Event>)
    requires Ascending(log)
    ensures |LiveOf(AllFacts(log))| == |LiveNums(log)|
  {
    CountLive(log, |log|);
    assert AllFacts(log)[..|log|] == AllFacts(log);
  }

  /** Folding one more event: new = old + 1 - the live targets of e. */
  lemma LiveCountStep(log: seq<Event>, e: Event, v: View, w: View)
    requires Ascending(log + [e]) && NamesOlder(log + [e]) && Folds(log, v) && Folds(log + [e], w)
    ensures |LiveOf(w.facts)| == |LiveOf(v.facts)| + 1 - |LiveNums(log) * Targets(e)|
  {
    FoldedFacts(log, v);
    FoldedFacts(log + [e], w);
    CountStep(log, e);
  }

  lemma CountStep(log: seq<Event>, e: Event)
    requires Ascending(log + [e]) && NamesOlder(log + [e])
    ensures |LiveOf(AllFacts(log + [e]))| == |LiveOf(AllFacts(log))| + 1 - |LiveNums(log) * Targets(e)|
  {
    var more := log + [e];
    assert forall i :: 0 <= i < |log| ==> more[i] == log[i];
    CountAllLive(more);
    CountAllLive(log);
    LiveSetStep(log, e);
    NewestIsLive(log, e);
    CountReplaced(LiveNums(log), Targets(e), e.num);
  }

  // ----- The resolution bridge -----

  ghost predicate SameTargets(a: seq<Event>, b: seq<Event>)
  {
    |a| == |b| && forall i :: 0 <= i < |a| ==> a[i].num == b[i].num && Targets(a[i]) == Targets(b[i])
  }

  /** Only the numbers and the retired sets matter to the fold. */
  lemma {:induction false} SameTargetsFoldAlike(a: seq<Event>, b: seq<Event>, t: int)
    requires SameTargets(a, b)
    ensures Listed(a, t) == Listed(b, t) && Retirer(a, t) == Retirer(b, t)
  {
    forall i | 0 <= i < |a|
      ensures t in RetiredBy(a[i]) <==> t in RetiredBy(b[i])
    {
      assert t in Targets(a[i]) <==> t in Targets(b[i]);
    }
    if a != [] { SameTargetsFoldAlike(a[..|a| - 1], b[..|b| - 1], t); }
  }

  /** A resolution that names escalations in its refs folds as one that supersedes them explicitly. */
  lemma BridgedResolution(log: seq<Event>, i: nat, bare: Event, explicit: Event)
    requires i < |log| && bare.kind == "resolution" && bare.num == explicit.num
    requires bare.supersedes == [] && explicit.supersedes == bare.refs
    requires explicit.refs == [] || explicit.refs == bare.refs || explicit.kind != "resolution"
    ensures var a, b := AllFacts(log[i := bare]), AllFacts(log[i := explicit]);
      forall j :: 0 <= j < |log| ==> a[j].live == b[j].live && a[j].supersededBy == b[j].supersededBy
    ensures LiveNums(log[i := bare]) == LiveNums(log[i := explicit])
    ensures SameTargets(log[i := bare], log[i := explicit])
  {
    var a, b := log[i := bare], log[i := explicit];
    assert Targets(bare) == Targets(explicit);
    forall t: int
      ensures Retirer(a, t) == Retirer(b, t)
    {
      SameTargetsFoldAlike(a, b, t);
    }
    assert forall j :: 0 <= j < |log| ==> a[j].num == b[j].num;
  }

  // ----- Supersession chains -----

  /** The depth-first closure over the retire edges. */
  class Walker {
    const retires: Adjacency<int>
    ghost const universe: set<int>
    var seen: set<int>

    ghost predicate Valid()
      reads this
    {
      Closed(retires, universe) && seen <= universe
    }

    constructor (retires: Adjacency<int>, ghost universe: set<int>)
      requires Closed(retires, universe)
      ensures Valid() && seen == {} && this.retires == retires && this.universe == universe
    {
      this.retires, this.universe, seen := retires, universe, {};
    }

    /** Marks s and everything not yet marked below it. */
    method Walk(s: int)
      requires Valid() && s in universe
      modifies this
      ensures Valid() && old(seen) <= seen && s in seen
      ensures forall n :: n in seen && n !in old(seen) ==> Reaches(retires, s, n)
      ensures forall n, m :: n in seen && n !in old(seen) && m in Successors(retires, n) ==> m in seen
      decreases |universe - seen|
    {
      if s in seen {
        return;
      }
      label entry:
      assert universe - (seen + {s}) == (universe - seen) - {s};
      seen := seen + {s};
      ReachesSelf(retires, s);
      var older := Successors(retires, s);
      for i := 0 to |older|
        invariant Valid() && old@entry(seen) + {s} <= seen
        invariant forall n :: n in seen && n !in old@entry(seen) ==> Reaches(retires, s, n)
        invariant forall n, m :: n in seen && n !in old@entry(seen) && n != s && m in Successors(retires, n) ==> m in seen
        invariant forall k :: 0 <= k < i ==> older[k] in seen
      {
        ghost var before := seen;
        SmallerLeft(universe, old@entry(seen), seen, s);
        Walk(older[i]);
        forall n | n in seen - before
          ensures Reaches(retires, s, n)
        {
          StepThenReach(retires, s, older[i], n);
        }
      }
    }
  }

  lemma SmallerLeft(universe: set<int>, before: set<int>, now: set<int>, s: int)
    requires s in universe && s !in before && before + {s} <= now
    ensures |universe - now| < |universe - before|
  {
    var a, b := universe - now, universe - before;
    assert a <= b - {s};
    Subset(a, b - {s});
  }

  lemma {:induction false} Subset(a: set<int>, b: set<int>)
    requires a <= b
    ensures |a| <= |b|
  {
    assert b == a + (b - a);
  }

  lemma StepThenReach(g: Adjacency<int>, a: int, b: int, c: int)
    requires b in Successors(g, a) && Reaches(g, b, c)
    ensures Reaches(g, a, c)
  {
    var p: seq<int> :| PathBetween(g, p, b, c);
    assert PathBetween(g, [a] + p, a, c);
  }

  predicate AscendingFacts(facts: seq<Fact>)
  {
    forall i, j :: 0 <= i < j < |facts| ==> facts[i].event.num < facts[j].event.num
  }

  predicate Holds(facts: seq<Fact>, n: int)
  {
    exists i :: 0 <= i < |facts| && facts[i].event.num == n
  }

  function Insert(facts: seq<Fact>, f: Fact): (r: seq<Fact>)
    requires AscendingFacts(facts) && !Holds(facts, f.event.num)
    ensures AscendingFacts(r)
    ensures forall x :: x in r <==> x in facts || x == f
  {
    if facts == [] then [f]
    else if facts[|facts| - 1].event.num < f.event.num then facts + [f]
    else
      var last := facts[|facts| - 1];
      assert facts == facts[..|facts| - 1] + [last];
      assert forall x :: x in facts[..|facts| - 1] ==> x.event.num < last.event.num;
      Insert(facts[..|facts| - 1], f) + [last]
  }

  /** The recorded facts reachable from s through retire edges, each once, oldest first. */
  ghost predicate IsChain(v: View, s: int, out: seq<Fact>)
  {
    if s !in v.byNum then out == []
    else
      && AscendingFacts(out)
      && (forall f :: f in out <==> f.event.num in v.byNum && f == v.byNum[f.event.num] && Reaches(v.retires, s, f.event.num))
  }

  method Closure(retires: Adjacency<int>, s: int) returns (seen: set<int>)
    ensures forall n :: n in seen <==> Reaches(retires, s, n)
  {
    ghost var universe := {s} + retires.Keys + (set k, t | k in retires && t in retires[k] :: t);
    var walker := new Walker(retires, universe);
    walker.Walk(s);
    seen := walker.seen;
    assert walker.retires == retires;
    assert forall n, m :: n in walker.seen && m in Successors(retires, n) ==> m in walker.seen;
    assert Closed(retires, seen);
    forall n
      ensures n in seen <==> Reaches(retires, s, n)
    {
      if Reaches(retires, s, n) { ClosedHoldsReachable(retires, seen, s, n); }
    }
  }

  /** The recorded facts among the given numbers, sorted. */
  method Collect(byNum: map<int, Fact>, nums: set<int>) returns (out: seq<Fact>)
    requires forall s :: s in byNum ==> byNum[s].event.num == s
    ensures AscendingFacts(out)
    ensures forall f :: f in out <==> f.event.num in nums && f.event.num in byNum && f == byNum[f.event.num]
  {
    out := [];
    var rest := nums;
    while rest != {}
      invariant rest <= nums && AscendingFacts(out)
      invariant forall f :: f in out <==> f.event.num in nums - rest && f.event.num in byNum && f == byNum[f.event.num]
      decreases |rest|
    {
      ghost var member := SetHasMember(rest);
      var n: int :| n in rest;
      rest := rest - {n};
      if n in byNum {
        assert forall f :: f in out ==> f.event.num != n;
        out := Insert(out, byNum[n]);
      }
    }
  }

  method Chain(v: View, s: int, ghost log: seq<Event>) returns (out: seq<Fact>)
    requires Folds(log, v)
    ensures IsChain(v, s, out)
  {
    if s !in v.byNum {
      return [];
    }
    var seen := Closure(v.retires, s);
    out := Collect(v.byNum, seen);
  }

  lemma {:induction false} PathDescends(g: Adjacency<int>, p: seq<int>)
    requires Path(g, p) && forall a, b :: b in Successors(g, a) ==> b < a
    ensures p[|p| - 1] <= p[0]
  {
    if |p| > 1 {
      var init := p[..|p| - 1];
      assert forall i :: 0 <= i < |init| ==> init[i] == p[i];
      PathDescends(g, init);
    }
  }

  lemma {:induction false} EdgesDescend(log: seq<Event>, s: int, t: int)
    requires NamesOlder(log) && t in Edges(log, s)
    ensures t < s
  {
    var init, last := log[..|log| - 1], log[|log| - 1];
    if last.num == s && t in RetiredBy(last) {
      assert log[|log| - 1] == last;
    } else {
      assert forall i :: 0 <= i < |init| ==> init[i] == log[i];
      EdgesDescend(init, s, t);
    }
  }

  /** When every target is older than its retirer, a fact's history ends with the fact itself. */
  lemma ChainEndsAtItself(log: seq<Event>, v: View, s: int, out: seq<Fact>)
    requires Folds(log, v) && NamesOlder(log)
    requires s in v.byNum && IsChain(v, s, out)
    ensures out != [] && out[|out| - 1].event.num == s
  {
    ReachesSelf(v.retires, s);
    assert v.byNum[s] in out;
    var last := out[|out| - 1];
    assert last in out;
    var p: seq<int> :| PathBetween(v.retires, p, s, last.event.num);
    forall a, b | b in Successors(v.retires, a)
      ensures b < a
    {
      EdgesDescend(log, a, b);
    }
    PathDescends(v.retires, p);
  }

  // ----- The bridge again, for chains -----

  lemma {:induction false} SameTargetsSameEdges(a: seq<Event>, b: seq<Event>, s: int, t: int)
    requires SameTargets(a, b)
    ensures t in Edges(a, s) <==> t in Edges(b, s)
  {
    if a != [] {
      var n := |a| - 1;
      SameTargetsSameEdges(a[..n], b[..n], s, t);
      assert t in RetiredBy(a[n]) <==> t in Targets(a[n]);
      assert t in RetiredBy(b[n]) <==> t in Targets(b[n]);
    }
  }

  lemma SameEdgesReach(g: Adjacency<int>, h: Adjacency<int>, s: int, n: int)
    requires forall x, t :: t in Successors(g, x) ==> t in Successors(h, x)
    ensures Reaches(g, s, n) ==> Reaches(h, s, n)
  {
    if Reaches(g, s, n) {
      var p: seq<int> :| PathBetween(g, p, s, n);
      forall i | 0 <= i < |p| - 1
        ensures p[i + 1] in Successors(h, p[i])
      {
        var x, t := p[i], p[i + 1];
        assert t in Successors(g, x);
      }
      assert PathBetween(h, p, s, n);
    }
  }

  function Nums(facts: seq<Fact>): seq<int>
  {
    seq(|facts|, i requires 0 <= i < |facts| => facts[i].event.num)
  }

  function Below(): (int, int) -> bool
  {
    (x: int, y: int) => x < y
  }

  lemma NumsAscend(facts: seq<Fact>)
    requires AscendingFacts(facts)
    ensures Ascends(Below(), Nums(facts))
    ensures forall n :: n in Nums(facts) <==> Holds(facts, n)
  {
    forall n ensures n in Nums(facts) <==> Holds(facts, n) {
      if n in Nums(facts) {
        var i :| 0 <= i < |facts| && Nums(facts)[i] == n;
        assert facts[i] in facts && facts[i].event.num == n;
      }
      if Holds(facts, n) {
        var i :| 0 <= i < |facts| && facts[i].event.num == n;
        assert Nums(facts)[i] == n;
      }
    }
  }

  lemma ChainHolds(v: View, s: int, out: seq<Fact>, n: int)
    requires IsChain(v, s, out) && forall k :: k in v.byNum ==> v.byNum[k].event.num == k
    ensures Holds(out, n) <==> s in v.byNum && n in v.byNum && Reaches(v.retires, s, n)
  {
    if s in v.byNum && n in v.byNum && Reaches(v.retires, s, n) {
      var f := v.byNum[n];
      assert f in out;
    }
  }

  lemma SameTargetsSameViews(a: seq<Event>, b: seq<Event>, v: View, w: View, k: int, t: int)
    requires SameTargets(a, b) && Folds(a, v) && Folds(b, w)
    ensures t in Successors(v.retires, k) ==> t in Successors(w.retires, k)
    ensures k in v.byNum ==> k in w.byNum
  {
    SameTargetsSameEdges(a, b, k, t);
    if k in v.byNum {
      var i :| 0 <= i < |a| && a[i].num == k;
      assert b[i].num == k;
    }
  }

  lemma ChainCarriesOver(a: seq<Event>, b: seq<Event>, v: View, w: View, s: int, x: seq<Fact>, y: seq<Fact>, n: int)
    requires SameTargets(a, b) && Folds(a, v) && Folds(b, w) && IsChain(v, s, x) && IsChain(w, s, y)
    ensures Holds(x, n) ==> Holds(y, n)
  {
    forall k, t ensures t in Successors(v.retires, k) ==> t in Successors(w.retires, k) {
      SameTargetsSameViews(a, b, v, w, k, t);
    }
    SameTargetsSameViews(a, b, v, w, s, s);
    SameTargetsSameViews(a, b, v, w, n, n);
    SameEdgesReach(v.retires, w.retires, s, n);
    ChainHolds(v, s, x, n);
    ChainHolds(w, s, y, n);
  }

  lemma SameNumsSameChain(x: seq<Fact>, y: seq<Fact>)
    requires AscendingFacts(x) && AscendingFacts(y) && forall n :: Holds(x, n) <==> Holds(y, n)
    ensures Nums(x) == Nums(y)
  {
    NumsAscend(x);
    NumsAscend(y);
    AscendingUnique(Below(), Nums(x), Nums(y));
  }

  /** The two forms of a resolution give every fact a history of the same events. */
  lemma BridgedChains(a: seq<Event>, b: seq<Event>, v: View, w: View, s: int, x: seq<Fact>, y: seq<Fact>)
    requires SameTargets(a, b) && Folds(a, v) && Folds(b, w) && IsChain(v, s, x) && IsChain(w, s, y)
    ensures Nums(x) == Nums(y)
  {
    forall n ensures Holds(x, n) <==> Holds(y, n) {
      ChainCarriesOver(a, b, v, w, s, x, y, n);
      ChainCarriesOver(b, a, w, v, s, y, x, n);
    }
    SameNumsSameChain(x, y);
  }
}
