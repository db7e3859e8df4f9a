/** Whole runs of one supervised session: every dispatch of a stream event and everything in between. */
module Session {
  import opened Text
  import opened Events
  import opened Gates

  datatype State = State(l: Ledger, p: Patience, limitFired: bool)

  /** What the world answers during one dispatch. */
  datatype Chance = Chance(promoted: seq<Event>, limit: Filing, limitHalt: bool, turn: Turn, veto: Veto,
                           answerOk: bool, permit: Filing, permitHalt: bool)

  datatype Step = Elsewhere(events: seq<Event>) | Stream(ev: StreamEvent, c: Chance)

  function Start(log: seq<Event>): State
  {
    State(Ledger(log, []), Patience(0, false), false)
  }

  function AfterLimit(s: Setup, x: State, ev: StreamEvent, c: Chance): Stopped
  {
    ConsiderLimit(s, x.limitFired, OthersFile(x.l, c.promoted), ev, c.limit, c.limitHalt)
  }

  /** The two gates that a permission request goes through. */
  function Permitted(s: Setup, l: Ledger, ev: StreamEvent, c: Chance): Ledger
  {
    var vetted := ConsiderProtocol(s, l, ev, c.veto);
    if !vetted.passed then vetted.l
    else ConsiderPermission(s, vetted.l, ev, c.answerOk, c.permit, c.permitHalt).l
  }

  /** One stream event: promote what the agent filed, then limit, completion, protocol and permission gate. */
  function Dispatch(s: Setup, x: State, ev: StreamEvent, c: Chance): State
  {
    var lim := AfterLimit(s, x, ev, c);
    if lim.stopped && !lim.failed then State(lim.l, x.p, lim.fired)
    else
      var con := Consider(s, x.p, lim.l, ev, c.turn);
      if (con.outcome.Escalated? && !con.failed) || !ev.kind.Permission? then State(con.l, con.p, lim.fired)
      else State(Permitted(s, con.l, ev, c), con.p, lim.fired)
  }

  function Next(s: Setup, x: State, step: Step): State
  {
    match step
    case Elsewhere(events) => x.(l := OthersFile(x.l, events))
    case Stream(ev, c) => Dispatch(s, x, ev, c)
  }

  function Run(s: Setup, x: State, steps: seq<Step>): State
  {
    if steps == [] then x else Next(s, Run(s, x, steps[..|steps| - 1]), steps[|steps| - 1])
  }

  // ----- The log grows and every act was justified when it happened -----

  ghost predicate Escalation(s: Setup, log: seq<Event>, n: nat)
  {
    exists i :: 0 <= i < n && i < |log| && log[i].num > s.baseline && log[i].kind == "escalation"
  }

  ghost predicate NoHandOff(s: Setup, log: seq<Event>, n: nat)
  {
    n <= |log| && forall i :: 0 <= i < n ==> !IsHandOff(s, log[i])
  }

  ghost predicate NoRationale(s: Setup, log: seq<Event>, n: nat)
  {
    n <= |log| && forall i :: 0 <= i < n ==> !IsRationale(s, log[i])
  }

  /** An act fits the log: what it wrote is there, and it had its reason at the time. */
  ghost predicate Justified(s: Setup, log: seq<Event>, a: Act)
  {
    match a
    case Nudge(checked) => NoHandOff(s, log, checked)
    case Wrote(gate, what, checked, at) =>
      && checked <= at < |log| && log[at].kind == what && log[at].num > s.baseline
      && (gate.Completion? ==> NoHandOff(s, log, checked) && what in {"park", "escalation"})
      && (!gate.Completion? ==> what == "escalation")
    case Answer(gate, allow, tool, at) =>
      && at <= |log|
      && (allow ==> gate.Permit? && s.allows(tool))
      && (!allow && gate.Permit? ==> !s.allows(tool) && Escalation(s, log, at))
      && (!allow && gate.Protocol? ==> s.withholds(tool) && NoRationale(s, log, at))
    case Halt(_, at) => at <= |log| && Escalation(s, log, at)
  }

  ghost predicate Sound(s: Setup, l: Ledger)
  {
    s.baseline <= MaxNum(l.log) && forall k :: 0 <= k < |l.acts| ==> Justified(s, l.log, l.acts[k])
  }

  ghost predicate Grows(s: Setup, l: Ledger, m: Ledger)
  {
    l.log <= m.log && l.acts <= m.acts && (Sound(s, l) ==> Sound(s, m))
  }

  lemma StaysJustified(s: Setup, log: seq<Event>, more: seq<Event>, a: Act)
    requires Justified(s, log, a) && log <= more
    ensures Justified(s, more, a)
  {
    assert forall i :: 0 <= i < |log| ==> more[i] == log[i];
  }

  lemma OthersGrow(s: Setup, l: Ledger, events: seq<Event>)
    ensures Grows(s, l, OthersFile(l, events))
  {
    var more := l.log + events;
    MaxNumGrows(l.log, more);
    forall k | 0 <= k < |l.acts| && Justified(s, l.log, l.acts[k]) ensures Justified(s, more, l.acts[k]) {
      StaysJustified(s, l.log, more, l.acts[k]);
    }
  }

  lemma ActGrows(s: Setup, l: Ledger, a: Act)
    requires Sound(s, l) && Justified(s, l.log, a)
    ensures Grows(s, l, l.(acts := l.acts + [a]))
  {
  }

  lemma WriteGrows(s: Setup, l: Ledger, gate: GateName, kind: string, tags: seq<string>, checked: nat, f: Filing)
    requires checked <= |l.log|
    requires gate.Completion? ==> NoHandOff(s, l.log, checked) && kind in {"park", "escalation"}
    requires !gate.Completion? ==> kind == "escalation"
    ensures var m := Write(s, l, gate, kind, tags, checked, f);
      Grows(s, l, m) && (Sound(s, l) && kind == "escalation" ==> Escalation(s, m.log, |m.log|))
  {
    var m, at := Write(s, l, gate, kind, tags, checked, f), |l.log + f.race|;
    var e := Filed(s, l.log, kind, tags, f.prev);
    assert m.log == l.log + (f.race + [e]);
    OthersGrow(s, l, f.race + [e]);
    assert m.log[at] == e;
    if gate.Completion? { assert forall i :: 0 <= i < |l.log| ==> m.log[i] == l.log[i]; }
    if Sound(s, l) { ActGrows(s, OthersFile(l, f.race + [e]), Wrote(gate, kind, checked, at)); }
  }

  lemma ReapGrows(s: Setup, l: Ledger, gate: GateName)
    requires Sound(s, l) && Escalation(s, l.log, |l.log|)
    ensures Grows(s, l, Reap(s, l, gate))
  {
    if s.hasHalt { ActGrows(s, l, Halt(gate, |l.log|)); }
  }

  lemma UnmetHasNoHandOff(s: Setup, log: seq<Event>, parkable: bool)
    requires !Met(s, log, parkable)
    ensures NoHandOff(s, log, |log|)
  {
  }

  lemma SettleGrows(s: Setup, p: Patience, l: Ledger, checked: nat, w: Turn)
    requires w.sources.Some? && NoHandOff(s, l.log, checked)
    ensures Grows(s, l, Settle(s, p, l, checked, w).l)
  {
    OthersGrow(s, l, w.filing.race);
    if w.sources.value != {} {
      WriteGrows(s, l, Completion, "park", [], checked, w.filing);
    } else {
      WriteGrows(s, l, Completion, "escalation", [], checked, w.filing);
      if Sound(s, l) { ReapGrows(s, Write(s, l, Completion, "escalation", [], checked, w.filing), Completion); }
    }
  }

  lemma ConsiderGrows(s: Setup, p: Patience, l: Ledger, ev: StreamEvent, w: Turn)
    ensures Grows(s, l, Consider(s, p, l, ev, w).l)
  {
    if !p.fired && SuccessTurn(ev) && w.sources.Some? {
      var parkable, l1 := w.sources.value != {}, OthersFile(l, w.before);
      OthersGrow(s, l, w.before);
      if w.readOk && !Met(s, l1.log, parkable) {
        UnmetHasNoHandOff(s, l1.log, parkable);
        if Sound(s, l1) { ActGrows(s, l1, Nudge(|l1.log|)); }
        var l2 := OthersFile(l1, w.between);
        OthersGrow(s, l1, w.between);
        assert NoHandOff(s, l2.log, |l1.log|);
        SettleGrows(s, p.(fired := true), l2, |l1.log|, w);
      }
    }
  }

  lemma LimitGrows(s: Setup, fired: bool, l: Ledger, ev: StreamEvent, f: Filing, haltOk: bool)
    ensures Grows(s, l, ConsiderLimit(s, fired, l, ev, f, haltOk).l)
  {
    OthersGrow(s, l, f.race);
    WriteGrows(s, l, Limit, "escalation", [AUTO_STOP_TAG], |l.log|, f);
    if Sound(s, l) { ReapGrows(s, Write(s, l, Limit, "escalation", [AUTO_STOP_TAG], |l.log|, f), Limit); }
  }

  lemma ProtocolGrows(s: Setup, l: Ledger, ev: StreamEvent, v: Veto)
    ensures Grows(s, l, ConsiderProtocol(s, l, ev, v).l)
  {
    var l1 := OthersFile(l, v.before);
    OthersGrow(s, l, v.before);
    if Sound(s, l1) && !HasRationale(s, l1.log) && ev.tool.Some? && s.withholds(ev.tool.value) {
      ActGrows(s, l1, Answer(Protocol, false, ev.tool.value, |l1.log|));
    }
  }

  lemma PermissionGrows(s: Setup, l: Ledger, ev: StreamEvent, answerOk: bool, f: Filing, haltOk: bool)
    ensures Grows(s, l, ConsiderPermission(s, l, ev, answerOk, f, haltOk).l)
  {
    OthersGrow(s, l, f.race);
    WriteGrows(s, l, Permit, "escalation", [], |l.log|, f);
    if Sound(s, l) && ev.tool.Some? {
      if s.allows(ev.tool.value) {
        ActGrows(s, l, Answer(Permit, true, ev.tool.value, |l.log|));
      } else {
        DenialGrows(s, Write(s, l, Permit, "escalation", [], |l.log|, f), ev.tool.value);
      }
    }
  }

  lemma DenialGrows(s: Setup, l: Ledger, tool: string)
    requires Sound(s, l) && Escalation(s, l.log, |l.log|) && !s.allows(tool)
    ensures Grows(s, l, Reap(s, l.(acts := l.acts + [Answer(Permit, false, tool, |l.log|)]), Permit))
  {
    ActGrows(s, l, Answer(Permit, false, tool, |l.log|));
    ReapGrows(s, l.(acts := l.acts + [Answer(Permit, false, tool, |l.log|)]), Permit);
  }

  lemma PermittedGrows(s: Setup, l: Ledger, ev: StreamEvent, c: Chance)
    ensures Grows(s, l, Permitted(s, l, ev, c))
  {
    ProtocolGrows(s, l, ev, c.veto);
    PermissionGrows(s, ConsiderProtocol(s, l, ev, c.veto).l, ev, c.answerOk, c.permit, c.permitHalt);
  }

  lemma NextGrows(s: Setup, x: State, step: Step)
    ensures Grows(s, x.l, Next(s, x, step).l)
  {
    match step {
      case Elsewhere(events) => OthersGrow(s, x.l, events);
      case Stream(ev, c) =>
        OthersGrow(s, x.l, c.promoted);
        var lim := AfterLimit(s, x, ev, c);
        LimitGrows(s, x.limitFired, OthersFile(x.l, c.promoted), ev, c.limit, c.limitHalt);
        var con := Consider(s, x.p, lim.l, ev, c.turn);
        ConsiderGrows(s, x.p, lim.l, ev, c.turn);
        PermittedGrows(s, con.l, ev, c);
        GrowsOn(s, x.l, OthersFile(x.l, c.promoted), lim.l);
        GrowsOn(s, x.l, lim.l, con.l);
        GrowsOn(s, x.l, con.l, Permitted(s, con.l, ev, c));
    }
  }

  lemma GrowsOn(s: Setup, l: Ledger, m: Ledger, n: Ledger)
    requires Grows(s, l, m) && Grows(s, m, n)
    ensures Grows(s, l, n)
  {
  }

  /** Over every run the log and the acts only grow, and every act was justified at its time. */
  lemma {:induction false} RunIsSound(s: Setup, x: State, steps: seq<Step>)
    ensures Grows(s, x.l, Run(s, x, steps).l)
  {
    if steps != [] {
      RunIsSound(s, x, steps[..|steps| - 1]);
      NextGrows(s, Run(s, x, steps[..|steps| - 1]), steps[|steps| - 1]);
      GrowsOn(s, x.l, Run(s, x, steps[..|steps| - 1]).l, Run(s, x, steps).l);
    }
  }

  /** The act stops the session, or is the permission gate's denial. */
  predicate Stops(a: Act)
  {
    a.Halt? || (a.Answer? && !a.allow && a.gate.Permit?)
  }

  /**
   * Over every run, whoever else files events and however: whenever the completion, limit or permission gate
   * halted the session or the permission gate denied a tool, an escalation newer than the baseline was in the log.
   */
  lemma HaltsFollowEscalations(s: Setup, log: seq<Event>, steps: seq<Step>, k: nat)
    requires s.baseline <= MaxNum(log)
    requires var l := Run(s, Start(log), steps).l; k < |l.acts| && Stops(l.acts[k])
    ensures var l := Run(s, Start(log), steps).l;
      && log <= l.log
      && exists i :: 0 <= i < l.acts[k].at && i < |l.log| && l.log[i].num > s.baseline && l.log[i].kind == "escalation"
  {
    RunIsSound(s, Start(log), steps);
    var l := Run(s, Start(log), steps).l;
    assert Justified(s, l.log, l.acts[k]);
    assert Escalation(s, l.log, l.acts[k].at);
  }

  /** The protocol gate denies only while no rationale newer than its start is in the log, and never halts. */
  lemma VetoesWantRationale(s: Setup, log: seq<Event>, steps: seq<Step>, k: nat)
    requires s.baseline <= MaxNum(log)
    requires var l := Run(s, Start(log), steps).l;
      k < |l.acts| && l.acts[k].Answer? && !l.acts[k].allow && l.acts[k].gate.Protocol?
    ensures var l := Run(s, Start(log), steps).l;
      l.acts[k].at <= |l.log| && forall i :: 0 <= i < l.acts[k].at ==> !IsRationale(s, l.log[i])
  {
    RunIsSound(s, Start(log), steps);
    var l := Run(s, Start(log), steps).l;
    assert Justified(s, l.log, l.acts[k]);
  }

  /**
   * Over every run a tool is approved only by the permission gate and only if the policy allows it, that gate
   * denies only what the policy does not allow, and the protocol gate only what it has to withhold.
   */
  lemma AnswersFollowPolicy(s: Setup, log: seq<Event>, steps: seq<Step>, k: nat)
    requires s.baseline <= MaxNum(log)
    requires var l := Run(s, Start(log), steps).l; k < |l.acts| && l.acts[k].Answer?
    ensures var a := Run(s, Start(log), steps).l.acts[k];
      && (a.allow ==> a.gate == Permit && s.allows(a.tool))
      && (!a.allow && a.gate == Permit ==> !s.allows(a.tool))
      && (!a.allow && a.gate == Protocol ==> s.withholds(a.tool))
  {
    RunIsSound(s, Start(log), steps);
    var l := Run(s, Start(log), steps).l;
    assert Justified(s, l.log, l.acts[k]);
  }

  // ----- Budgets -----

  /** The first n acts, of one kind. */
  function NudgesTo(acts: seq<Act>, n: nat): nat
    requires n <= |acts|
  {
    if n == 0 then 0 else NudgesTo(acts, n - 1) + (if acts[n - 1].Nudge? then 1 else 0)
  }

  function WritesTo(acts: seq<Act>, gate: GateName, n: nat): nat
    requires n <= |acts|
  {
    if n == 0 then 0
    else WritesTo(acts, gate, n - 1) + (if acts[n - 1].Wrote? && acts[n - 1].gate == gate then 1 else 0)
  }

  function AnswersTo(acts: seq<Act>, n: nat): nat
    requires n <= |acts|
  {
    if n == 0 then 0 else AnswersTo(acts, n - 1) + (if acts[n - 1].Answer? then 1 else 0)
  }

  function Nudges(acts: seq<Act>): nat
  {
    NudgesTo(acts, |acts|)
  }

  function Writes(acts: seq<Act>, gate: GateName): nat
  {
    WritesTo(acts, gate, |acts|)
  }

  function Answers(acts: seq<Act>): nat
  {
    AnswersTo(acts, |acts|)
  }

  lemma {:induction false} CountPrefix(acts: seq<Act>, a: Act, n: nat)
    requires n <= |acts|
    ensures NudgesTo(acts + [a], n) == NudgesTo(acts, n) && AnswersTo(acts + [a], n) == AnswersTo(acts, n)
    ensures forall gate :: WritesTo(acts + [a], gate, n) == WritesTo(acts, gate, n)
  {
    if n > 0 { CountPrefix(acts, a, n - 1); }
  }

  lemma CountOneMore(acts: seq<Act>, a: Act)
    ensures Nudges(acts + [a]) == Nudges(acts) + (if a.Nudge? then 1 else 0)
    ensures Answers(acts + [a]) == Answers(acts) + (if a.Answer? then 1 else 0)
    ensures forall gate :: Writes(acts + [a], gate) == Writes(acts, gate) + (if a.Wrote? && a.gate == gate then 1 else 0)
  {
    CountPrefix(acts, a, |acts|);
  }

  /** The budgets: nudges within their limit, one write per latched gate. */
  ghost predicate Bounded(s: Setup, x: State)
  {
    && Nudges(x.l.acts) <= x.p.nudges <= s.maxNudges
    && (!s.hasNudger ==> x.p.nudges == 0)
    && Writes(x.l.acts, Completion) <= (if x.p.fired then 1 else 0)
    && Writes(x.l.acts, Limit) <= (if x.limitFired then 1 else 0)
  }

  /** One event of this gate was filed, and no nudge or answer was given. */
  ghost predicate OneWrite(before: seq<Act>, after: seq<Act>, gate: GateName)
  {
    && Nudges(after) == Nudges(before) && Answers(after) == Answers(before)
    && forall g :: Writes(after, g) == Writes(before, g) + (if g == gate then 1 else 0)
  }

  lemma WriteThenHalt(acts: seq<Act>, w: Act, h: Act)
    requires w.Wrote? && h.Halt?
    ensures OneWrite(acts, acts + [w], w.gate) && OneWrite(acts, acts + [w] + [h], w.gate)
  {
    CountOneMore(acts, w);
    CountOneMore(acts + [w], h);
  }

  lemma WriteCounts(s: Setup, l: Ledger, gate: GateName, kind: string, tags: seq<string>, checked: nat, f: Filing)
    ensures OneWrite(l.acts, Reap(s, Write(s, l, gate, kind, tags, checked, f), gate).acts, gate)
    ensures OneWrite(l.acts, Write(s, l, gate, kind, tags, checked, f).acts, gate)
  {
    var m := Write(s, l, gate, kind, tags, checked, f);
    WriteThenHalt(l.acts, Wrote(gate, kind, checked, |l.log + f.race|), Halt(gate, |m.log|));
  }

  lemma SettleCounts(s: Setup, p: Patience, l: Ledger, checked: nat, w: Turn)
    requires w.sources.Some?
    ensures var acts := Settle(s, p, l, checked, w).l.acts;
      && Nudges(acts) == Nudges(l.acts) && Writes(acts, Completion) <= Writes(l.acts, Completion) + 1
      && Writes(acts, Limit) == Writes(l.acts, Limit) && Answers(acts) == Answers(l.acts)
  {
    if w.sources.value != {} {
      WriteCounts(s, l, Completion, "park", [], checked, w.filing);
    } else {
      WriteCounts(s, l, Completion, "escalation", [], checked, w.filing);
    }
  }

  /** One call spends a nudge for each nudge it sends, and its only write when it latches. */
  ghost predicate Spends(s: Setup, p: Patience, acts: seq<Act>, q: Patience, more: seq<Act>)
  {
    && Nudges(more) - Nudges(acts) <= q.nudges - p.nudges
    && (q.nudges == p.nudges || (q.nudges == p.nudges + 1 <= s.maxNudges && s.hasNudger))
    && Writes(more, Completion) <= Writes(acts, Completion) + (if q.fired && !p.fired then 1 else 0)
    && Writes(more, Limit) == Writes(acts, Limit) && (p.fired ==> q.fired)
  }

  lemma NudgeSpends(s: Setup, p: Patience, l: Ledger)
    requires !BudgetSpent(s, p)
    ensures Spends(s, p, l.acts, p.(nudges := p.nudges + 1), l.acts + [Nudge(|l.log|)])
    ensures Spends(s, p, l.acts, p.(nudges := p.nudges + 1), l.acts)
  {
    CountOneMore(l.acts, Nudge(|l.log|));
  }

  lemma ConsiderSpends(s: Setup, p: Patience, l: Ledger, ev: StreamEvent, w: Turn)
    ensures var con := Consider(s, p, l, ev, w); Spends(s, p, l.acts, con.p, con.l.acts)
  {
    if !p.fired && SuccessTurn(ev) && w.sources.Some? {
      var l1 := OthersFile(l, w.before);
      if BudgetSpent(s, p) {
        SettleCounts(s, p.(fired := true), OthersFile(l1, w.between), |l1.log|, w);
      } else {
        NudgeSpends(s, p, l1);
      }
    }
  }

  lemma ConsiderBounded(s: Setup, x: State, ev: StreamEvent, w: Turn)
    requires Bounded(s, x)
    ensures var con := Consider(s, x.p, x.l, ev, w); Bounded(s, State(con.l, con.p, x.limitFired))
  {
    ConsiderSpends(s, x.p, x.l, ev, w);
  }

  lemma LimitBounded(s: Setup, x: State, ev: StreamEvent, f: Filing, haltOk: bool)
    requires Bounded(s, x)
    ensures var lim := ConsiderLimit(s, x.limitFired, x.l, ev, f, haltOk); Bounded(s, State(lim.l, x.p, lim.fired))
  {
    WriteCounts(s, x.l, Limit, "escalation", [AUTO_STOP_TAG], |x.l.log|, f);
  }

  /** The two permission steps add no nudge and no write of the other gates, and at most one answer. */
  ghost predicate AnswersOnly(l: Ledger, m: Ledger, most: nat)
  {
    && Nudges(m.acts) == Nudges(l.acts) && Answers(m.acts) <= Answers(l.acts) + most
    && Writes(m.acts, Completion) == Writes(l.acts, Completion) && Writes(m.acts, Limit) == Writes(l.acts, Limit)
  }

  lemma AnswerCounts(l: Ledger, m: Ledger, a: Act, n: nat)
    requires AnswersOnly(l, m, n) && !a.Nudge? && !a.Wrote?
    ensures AnswersOnly(l, m.(acts := m.acts + [a]), if a.Answer? then n + 1 else n)
  {
    CountOneMore(m.acts, a);
  }

  lemma DenialCounts(s: Setup, l: Ledger, tool: string, f: Filing)
    ensures var written := Write(s, l, Permit, "escalation", [], |l.log|, f);
      AnswersOnly(l, Reap(s, written.(acts := written.acts + [Answer(Permit, false, tool, |written.log|)]), Permit), 1)
  {
    WriteCounts(s, l, Permit, "escalation", [], |l.log|, f);
    var written := Write(s, l, Permit, "escalation", [], |l.log|, f);
    var denied := written.(acts := written.acts + [Answer(Permit, false, tool, |written.log|)]);
    AnswerCounts(l, written, Answer(Permit, false, tool, |written.log|), 0);
    AnswerCounts(l, denied, Halt(Permit, |denied.log|), 1);
  }

  lemma PermissionCounts(s: Setup, l: Ledger, ev: StreamEvent, answerOk: bool, f: Filing, haltOk: bool)
    ensures AnswersOnly(l, ConsiderPermission(s, l, ev, answerOk, f, haltOk).l, 1)
  {
    if ev.tool.Some? {
      AnswerCounts(l, l, Answer(Permit, true, ev.tool.value, |l.log|), 0);
      DenialCounts(s, l, ev.tool.value, f);
    }
  }

  lemma PermittedCounts(s: Setup, l: Ledger, ev: StreamEvent, c: Chance)
    ensures AnswersOnly(l, Permitted(s, l, ev, c), 1)
  {
    var vetted, l1 := ConsiderProtocol(s, l, ev, c.veto), OthersFile(l, c.veto.before);
    if vetted.passed {
      PermissionCounts(s, vetted.l, ev, c.answerOk, c.permit, c.permitHalt);
    } else if ev.tool.Some? {
      AnswerCounts(l1, l1, Answer(Protocol, false, ev.tool.value, |l1.log|), 0);
    }
  }

  lemma NextBounded(s: Setup, x: State, step: Step)
    requires Bounded(s, x)
    ensures Bounded(s, Next(s, x, step))
  {
    if step.Stream? {
      var ev, c := step.ev, step.c;
      var promoted := x.(l := OthersFile(x.l, c.promoted));
      LimitBounded(s, promoted, ev, c.limit, c.limitHalt);
      var lim := AfterLimit(s, x, ev, c);
      var limited := State(lim.l, x.p, lim.fired);
      ConsiderBounded(s, limited, ev, c.turn);
      PermittedCounts(s, Consider(s, x.p, lim.l, ev, c.turn).l, ev, c);
    }
  }

  /**
   * Over every run of one session: at most maxNudges nudges, and at most one event in total from the
   * completion gate and one from the limit gate.
   */
  lemma {:induction false} RunIsBounded(s: Setup, log: seq<Event>, steps: seq<Step>)
    ensures var y := Run(s, Start(log), steps);
      Bounded(s, y) && Nudges(y.l.acts) <= s.maxNudges
      && Writes(y.l.acts, Completion) <= 1 && Writes(y.l.acts, Limit) <= 1
  {
    if steps != [] {
      RunIsBounded(s, log, steps[..|steps| - 1]);
      NextBounded(s, Run(s, Start(log), steps[..|steps| - 1]), steps[|steps| - 1]);
    }
  }

  function Requests(steps: seq<Step>): nat
  {
    if steps == [] then 0
    else
      var last := steps[|steps| - 1];
      Requests(steps[..|steps| - 1]) + (if last.Stream? && last.ev.kind.Permission? then 1 else 0)
  }

  /** A permission request gets at most one answer from the two gates that may give one; nothing else gets any. */
  lemma OneAnswerPerRequest(s: Setup, x: State, step: Step)
    ensures Answers(Next(s, x, step).l.acts)
         <= Answers(x.l.acts) + (if step.Stream? && step.ev.kind.Permission? then 1 else 0)
  {
    if step.Stream? {
      var ev, c := step.ev, step.c;
      var l, lim := OthersFile(x.l, c.promoted), AfterLimit(s, x, ev, c);
      WriteCounts(s, l, Limit, "escalation", [AUTO_STOP_TAG], |l.log|, c.limit);
      ConsiderAnswers(s, x.p, lim.l, ev, c.turn);
      PermittedCounts(s, Consider(s, x.p, lim.l, ev, c.turn).l, ev, c);
    }
  }

  lemma ConsiderAnswers(s: Setup, p: Patience, l: Ledger, ev: StreamEvent, w: Turn)
    ensures Answers(Consider(s, p, l, ev, w).l.acts) == Answers(l.acts)
  {
    var l1 := OthersFile(l, w.before);
    CountOneMore(l1.acts, Nudge(|l1.log|));
    if w.sources.Some? {
      SettleCounts(s, p.(fired := true), OthersFile(l1, w.between), |l1.log|, w);
    }
  }

  /** So over a run there are no more answers than requests. */
  lemma {:induction false} AnswersAreBounded(s: Setup, log: seq<Event>, steps: seq<Step>)
    ensures Answers(Run(s, Start(log), steps).l.acts) <= Requests(steps)
  {
    if steps != [] {
      AnswersAreBounded(s, log, steps[..|steps| - 1]);
      OneAnswerPerRequest(s, Run(s, Start(log), steps[..|steps| - 1]), steps[|steps| - 1]);
    }
  }

  // ----- Silence after a hand-off -----

  predicate ByCompletion(a: Act)
  {
    a.Nudge? || ((a.Wrote? || a.Halt?) && a.gate.Completion?)
  }

  ghost predicate Quiet(before: seq<Act>, after: seq<Act>)
  {
    before <= after && forall k :: |before| <= k < |after| ==> !ByCompletion(after[k])
  }

  lemma HandOffPersists(s: Setup, log: seq<Event>, more: seq<Event>)
    requires HandOff(s, log) && log <= more
    ensures HandOff(s, more)
  {
    var i :| 0 <= i < |log| && IsHandOff(s, log[i]);
    assert more[i] == log[i];
  }

  lemma OneMoreQuiet(acts: seq<Act>, more: seq<Act>, a: Act)
    requires Quiet(acts, more) && !ByCompletion(a)
    ensures Quiet(acts, more + [a])
  {
  }

  lemma LimitQuiet(s: Setup, fired: bool, l: Ledger, ev: StreamEvent, f: Filing, haltOk: bool)
    ensures Quiet(l.acts, ConsiderLimit(s, fired, l, ev, f, haltOk).l.acts)
  {
    var m := Write(s, l, Limit, "escalation", [AUTO_STOP_TAG], |l.log|, f);
    OneMoreQuiet(l.acts, m.acts, Halt(Limit, |m.log|));
  }

  lemma PermissionQuiet(s: Setup, l: Ledger, ev: StreamEvent, answerOk: bool, f: Filing, haltOk: bool)
    ensures Quiet(l.acts, ConsiderPermission(s, l, ev, answerOk, f, haltOk).l.acts)
  {
    var m := Write(s, l, Permit, "escalation", [], |l.log|, f);
    if ev.tool.Some? {
      var denial := Answer(Permit, false, ev.tool.value, |m.log|);
      OneMoreQuiet(l.acts, m.acts, denial);
      OneMoreQuiet(l.acts, m.acts + [denial], Halt(Permit, |m.log|));
    }
  }

  lemma PermittedQuiet(s: Setup, l: Ledger, ev: StreamEvent, c: Chance)
    ensures Quiet(l.acts, Permitted(s, l, ev, c).acts)
  {
    PermissionQuiet(s, ConsiderProtocol(s, l, ev, c.veto).l, ev, c.answerOk, c.permit, c.permitHalt);
  }

  lemma CompletionQuiet(s: Setup, p: Patience, l: Ledger, ev: StreamEvent, w: Turn)
    requires HandOff(s, l.log)
    ensures var con := Consider(s, p, l, ev, w); con.l.acts == l.acts && con.p == p && !con.outcome.Escalated?
  {
    HandOffPersists(s, l.log, OthersFile(l, w.before).log);
  }

  lemma NextQuiet(s: Setup, x: State, step: Step)
    requires HandOff(s, x.l.log)
    ensures Quiet(x.l.acts, Next(s, x, step).l.acts) && Next(s, x, step).p == x.p
  {
    if step.Stream? {
      var ev, c := step.ev, step.c;
      var promoted, lim := OthersFile(x.l, c.promoted), AfterLimit(s, x, ev, c);
      LimitQuiet(s, x.limitFired, promoted, ev, c.limit, c.limitHalt);
      LimitGrows(s, x.limitFired, promoted, ev, c.limit, c.limitHalt);
      HandOffPersists(s, x.l.log, lim.l.log);
      CompletionQuiet(s, x.p, lim.l, ev, c.turn);
      PermittedQuiet(s, Consider(s, x.p, lim.l, ev, c.turn).l, ev, c);
    }
  }

  /**
   * Once any review or escalation newer than the baseline is in the log, whoever wrote it, the
   * completion gate never writes, nudges or halts again.
   */
  lemma {:induction false} HandOffSilences(s: Setup, x: State, steps: seq<Step>)
    requires HandOff(s, x.l.log)
    ensures var y := Run(s, x, steps); Quiet(x.l.acts, y.l.acts) && y.p == x.p
  {
    if steps != [] {
      var y := Run(s, x, steps[..|steps| - 1]);
      HandOffSilences(s, x, steps[..|steps| - 1]);
      RunIsSound(s, x, steps[..|steps| - 1]);
      HandOffPersists(s, x.l.log, y.l.log);
      NextQuiet(s, y, steps[|steps| - 1]);
    }
  }

  // ----- When the gate escalates, and when it must have latched -----

  /** The log has gained what others filed, and then this event of a gate. */
  predicate Files(s: Setup, l: Ledger, f: Filing, kind: string, tags: seq<string>, log: seq<Event>)
  {
    var n := |l.log + f.race|;
    && |log| == n + 1 && log[..n] == l.log + f.race
    && log[n] == Event(log[n].num, kind, s.now / SECOND * SECOND, s.actor, "", "", [], [], [], "", "", "", "", [], tags,
                       "", 0, f.prev, log[n].hash, "")
    && (forall i :: 0 <= i < |l.log| ==> l.log[i].num < log[n].num)
    && log[n].hash == ComputeHash(s.h, log[n])
  }

  lemma {:induction false} MaxNumBounds(log: seq<Event>)
    ensures forall i :: 0 <= i < |log| ==> log[i].num <= MaxNum(log)
    ensures MaxNum(log) == 0 || exists i :: 0 <= i < |log| && log[i].num == MaxNum(log)
  {
    if log != [] {
      var init := log[..|log| - 1];
      MaxNumBounds(init);
      assert forall i :: 0 <= i < |init| ==> log[i] == init[i];
    }
  }

  lemma WriteFiles(s: Setup, l: Ledger, gate: GateName, kind: string, tags: seq<string>, checked: nat, f: Filing)
    ensures Files(s, l, f, kind, tags, Write(s, l, gate, kind, tags, checked, f).log)
  {
    MaxNumBounds(l.log);
    var e := Filed(s, l.log, kind, tags, f.prev);
    assert Canon(e) == Canon(e.(hash := ""));
  }

  function HaltIf(s: Setup, gate: GateName, at: nat): seq<Act>
  {
    if s.hasHalt then [Halt(gate, at)] else []
  }

  /** What the permission gate answers, and what it leaves behind, for every event and policy. */
  lemma PermitsExactly(s: Setup, l: Ledger, ev: StreamEvent, answerOk: bool, f: Filing, haltOk: bool)
    ensures var d, asked := ConsiderPermission(s, l, ev, answerOk, f, haltOk), ev.kind.Permission? && ev.tool.Some?;
      && (d.outcome == Allowed <==> asked && s.allows(ev.tool.value) && answerOk)
      && (d.outcome == Denied <==> asked && !s.allows(ev.tool.value) && f.ok)
      && (d.outcome == Allowed ==> d.l == Ledger(l.log, l.acts + [Answer(Permit, true, ev.tool.value, |l.log|)]))
      && (d.outcome == Denied ==> Files(s, l, f, "escalation", [], d.l.log))
      && (d.outcome == Denied ==>
            d.l.acts == l.acts + [Wrote(Permit, "escalation", |l.log|, |d.l.log| - 1)]
                      + [Answer(Permit, false, ev.tool.value, |d.l.log|)] + HaltIf(s, Permit, |d.l.log|))
      && (d.outcome == NotAsked ==> d.l.acts == l.acts)
      && (d.failed <==> if d.outcome == Denied then s.hasHalt && !haltOk else asked && d.outcome == NotAsked)
  {
    WriteFiles(s, l, Permit, "escalation", [], |l.log|, f);
    assert forall acts: seq<Act> :: acts + [] == acts;
  }

  /** When the protocol gate lets a request through, and what it does otherwise. */
  lemma WithholdsExactly(s: Setup, l: Ledger, ev: StreamEvent, v: Veto)
    ensures var d, bound := ConsiderProtocol(s, l, ev, v),
                            ev.kind.Permission? && ev.tool.Some? && s.withholds(ev.tool.value);
      var justified := exists e :: e in l.log + v.before && e.num > s.since && e.kind in {"decision", "gotcha"};
      && (d.passed <==> !bound || (v.readOk && justified))
      && (d.failed <==> bound && (!v.readOk || (!justified && !v.answerOk)))
      && d.l.log == (if bound then l.log + v.before else l.log)
      && d.l.acts == l.acts + (if d.passed || d.failed then []
                               else [Answer(Protocol, false, ev.tool.value, |l.log + v.before|)])
  {
    var all := l.log + v.before;
    if e :| e in all && e.num > s.since && e.kind in {"decision", "gotcha"} {
      var i :| 0 <= i < |all| && all[i] == e;
      assert IsRationale(s, all[i]);
    }
  }

  /** When the gate nudges, and when it lets a wakeable attempt suspend. */
  lemma NudgesAndParksExactly(s: Setup, p: Patience, l: Ledger, ev: StreamEvent, w: Turn)
    ensures var con, log := Consider(s, p, l, ev, w), l.log + w.before;
      var unmet := !p.fired && ev.kind.TurnEnd? && ev.turn == "success" && w.sources.Some? && w.readOk &&
        forall e :: e in log && e.num > s.baseline ==>
          e.kind != "review" && e.kind != "escalation" && (w.sources.value != {} ==> e.kind != "park");
      var spent := !s.hasNudger || p.nudges >= s.maxNudges;
      && (con.outcome == Nudged <==> unmet && !spent && w.nudgeOk)
      && (con.outcome == Parked <==> unmet && spent && w.sources.value != {})
      && con.p == Patience(if unmet && !spent then p.nudges + 1 else p.nudges, p.fired || (unmet && spent))
      && (con.outcome == Nudged ==> con.l == Ledger(log, l.acts + [Nudge(|log|)]))
      && (con.outcome == Parked && !con.failed && AsyncJob in w.sources.value ==>
            Files(s, OthersFile(l, w.before + w.between), w.filing, "park", [], con.l.log))
      && (con.outcome == Parked && AsyncJob !in w.sources.value ==> con.l == Ledger(log + w.between, l.acts))
  {
    var log := l.log + w.before;
    if w.sources.Some? { UnmetMembers(s, log, w.sources.value != {}); }
    var l2 := OthersFile(OthersFile(l, w.before), w.between);
    assert l2 == OthersFile(l, w.before + w.between);
    WriteFiles(s, l2, Completion, "park", [], |log|, w.filing);
  }

  /** When the completion gate reports an error: what it needed could not be read, sent, filed or halted. */
  lemma ErrsExactly(s: Setup, p: Patience, l: Ledger, ev: StreamEvent, w: Turn)
    ensures var spent := !s.hasNudger || p.nudges >= s.maxNudges;
      Consider(s, p, l, ev, w).failed <==>
        && !p.fired && ev.kind.TurnEnd? && ev.turn == "success"
        && (w.sources.None? || !w.readOk || (!Met(s, l.log + w.before, w.sources.value != {}) &&
              if !spent then !w.nudgeOk
              else if w.sources.value == {} then !w.filing.ok || (s.hasHalt && !w.haltOk)
              else AsyncJob in w.sources.value && !w.filing.ok))
  {
  }

  lemma UnmetMembers(s: Setup, log: seq<Event>, parkable: bool)
    ensures !Met(s, log, parkable) <==>
      forall e :: e in log && e.num > s.baseline ==>
        e.kind != "review" && e.kind != "escalation" && (parkable ==> e.kind != "park")
  {
    if !Met(s, log, parkable) {
      forall e | e in log && e.num > s.baseline
        ensures e.kind != "review" && e.kind != "escalation" && (parkable ==> e.kind != "park")
      {
        var i :| 0 <= i < |log| && log[i] == e;
        assert !IsHandOff(s, log[i]) && (parkable ==> !IsPark(s, log[i]));
      }
    }
  }

  /** The gate hands the session to a human on exactly these inputs. */
  lemma EscalatesExactly(s: Setup, p: Patience, l: Ledger, ev: StreamEvent, w: Turn)
    ensures Consider(s, p, l, ev, w).outcome == Escalated <==>
      && !p.fired && SuccessTurn(ev) && w.sources == Some({}) && w.readOk && w.filing.ok
      && !HandOff(s, OthersFile(l, w.before).log) && BudgetSpent(s, p)
  {
  }

  /** The limit gate stops the session on the first frame that reaches a set threshold, and is latched from then on. */
  lemma StopsExactly(s: Setup, fired: bool, l: Ledger, ev: StreamEvent, f: Filing, haltOk: bool)
    ensures var lim, reached := ConsiderLimit(s, fired, l, ev, f, haltOk),
                                s.threshold > 0 && ev.contextTokens.Some? && ev.contextTokens.value >= s.threshold;
      && (lim.fired <==> fired || reached)
      && (lim.stopped <==> !fired && reached && f.ok)
      && (lim.failed <==> !fired && reached && (!f.ok || (s.hasHalt && !haltOk)))
      && (lim.stopped ==> Files(s, l, f, "escalation", ["context-auto-stop"], lim.l.log))
      && (lim.stopped ==>
            lim.l.acts == l.acts + [Wrote(Limit, "escalation", |l.log|, |lim.l.log| - 1)] + HaltIf(s, Limit, |lim.l.log|))
      && (!lim.stopped ==> lim.l.acts == l.acts)
  {
    WriteFiles(s, l, Limit, "escalation", ["context-auto-stop"], |l.log|, f);
    assert forall acts: seq<Act> :: acts + [] == acts;
  }

  /** An escalation of the completion gate is filed, and then the session is halted if it can be. */
  lemma EscalationActs(s: Setup, p: Patience, l: Ledger, ev: StreamEvent, w: Turn)
    ensures var con, checked := Consider(s, p, l, ev, w), |l.log + w.before|;
      && (con.outcome == Escalated ==>
            Files(s, OthersFile(l, w.before + w.between), w.filing, "escalation", [], con.l.log))
      && (con.outcome == Escalated ==>
            con.l.acts == l.acts + [Wrote(Completion, "escalation", checked, |con.l.log| - 1)]
                        + HaltIf(s, Completion, |con.l.log|))
      && (con.outcome == Ignored ==> con.l.acts == l.acts)
  {
    var l2 := OthersFile(OthersFile(l, w.before), w.between);
    assert l2 == OthersFile(l, w.before + w.between);
    WriteFiles(s, l2, Completion, "escalation", [], |l.log + w.before|, w.filing);
    assert forall acts: seq<Act> :: acts + [] == acts;
  }

  // ----- What one dispatch approves -----

  /** No act in between approves a tool. */
  ghost predicate NoApproval(before: seq<Act>, after: seq<Act>)
  {
    before <= after && forall k :: |before| <= k < |after| ==> !(after[k].Answer? && after[k].allow)
  }

  lemma ConsiderApprovesNone(s: Setup, p: Patience, l: Ledger, ev: StreamEvent, w: Turn)
    ensures NoApproval(l.acts, Consider(s, p, l, ev, w).l.acts)
  {
    NudgesAndParksExactly(s, p, l, ev, w);
    EscalationActs(s, p, l, ev, w);
  }

  lemma LimitApprovesNone(s: Setup, fired: bool, l: Ledger, ev: StreamEvent, f: Filing, haltOk: bool)
    ensures NoApproval(l.acts, ConsiderLimit(s, fired, l, ev, f, haltOk).l.acts)
  {
    StopsExactly(s, fired, l, ev, f, haltOk);
  }

  predicate IsApproval(a: Act, tool: string)
  {
    a.Answer? && a.gate == Permit && a.allow && a.tool == tool
  }

  ghost predicate Approves(before: seq<Act>, after: seq<Act>, tool: string)
  {
    before <= after && exists k :: |before| <= k < |after| && IsApproval(after[k], tool)
  }

  /** The event carries a fill that stops the session at once. */
  predicate StopsHere(s: Setup, x: State, ev: StreamEvent, c: Chance)
  {
    && !x.limitFired && s.threshold > 0 && ev.contextTokens.Some? && ev.contextTokens.value >= s.threshold
    && c.limit.ok && !(s.hasHalt && !c.limitHalt)
  }

  ghost predicate RationaleIn(s: Setup, log: seq<Event>)
  {
    exists e :: e in log && e.num > s.since && e.kind in {"decision", "gotcha"}
  }

  /**
   * A request is approved exactly when the event does not stop the session, the tool needs no rationale or one
   * is on the log by then, the policy allows it, and the answer goes out.
   */
  lemma DispatchApprovesExactly(s: Setup, x: State, ev: StreamEvent, c: Chance)
    requires ev.kind.Permission? && ev.tool.Some?
    ensures Approves(x.l.acts, Next(s, x, Stream(ev, c)).l.acts, ev.tool.value) <==>
      && !StopsHere(s, x, ev, c)
      && (s.withholds(ev.tool.value) ==>
            c.veto.readOk && RationaleIn(s, AfterLimit(s, x, ev, c).l.log + c.veto.before))
      && s.allows(ev.tool.value) && c.answerOk
  {
    var lim := AfterLimit(s, x, ev, c);
    var l1 := OthersFile(x.l, c.promoted);
    StopsExactly(s, x.limitFired, l1, ev, c.limit, c.limitHalt);
    LimitApprovesNone(s, x.limitFired, l1, ev, c.limit, c.limitHalt);
    if !StopsHere(s, x, ev, c) { PermittedApproves(s, x, lim.l, ev, c); }
  }

  lemma PermittedApproves(s: Setup, x: State, l: Ledger, ev: StreamEvent, c: Chance)
    requires ev.kind.Permission? && ev.tool.Some? && NoApproval(x.l.acts, l.acts)
    ensures Approves(x.l.acts, Permitted(s, l, ev, c).acts, ev.tool.value) <==>
      && (s.withholds(ev.tool.value) ==> c.veto.readOk && RationaleIn(s, l.log + c.veto.before))
      && s.allows(ev.tool.value) && c.answerOk
  {
    WithholdsExactly(s, l, ev, c.veto);
    var vetted := ConsiderProtocol(s, l, ev, c.veto);
    PermitsExactly(s, vetted.l, ev, c.answerOk, c.permit, c.permitHalt);
    var d := ConsiderPermission(s, vetted.l, ev, c.answerOk, c.permit, c.permitHalt);
    if vetted.passed && d.outcome == Allowed {
      assert IsApproval(d.l.acts[|d.l.acts| - 1], ev.tool.value);
    }
  }

  /** Whatever fills, fires: the latch of the limit gate follows every frame. */
  lemma DispatchLatchesLimit(s: Setup, x: State, ev: StreamEvent, c: Chance)
    ensures var y := Next(s, x, Stream(ev, c));
      && y.limitFired ==
           (x.limitFired || (s.threshold > 0 && ev.contextTokens.Some? && ev.contextTokens.value >= s.threshold))
      && (StopsHere(s, x, ev, c) ==> y.p == x.p && y.l == AfterLimit(s, x, ev, c).l)
  {
    StopsExactly(s, x.limitFired, OthersFile(x.l, c.promoted), ev, c.limit, c.limitHalt);
  }

  lemma HandOffSplit(s: Setup, a: seq<Event>, b: seq<Event>)
    ensures HandOff(s, a + b) <==> HandOff(s, a) || HandOff(s, b)
  {
    if i: nat :| i < |a| && IsHandOff(s, a[i]) { assert (a + b)[i] == a[i]; }
    if i: nat :| i < |b| && IsHandOff(s, b[i]) { assert (a + b)[|a| + i] == b[i]; }
  }

  /**
   * The check and the write are two accesses. When the gate files its escalation, a hand-off is already in the
   * log exactly if somebody filed one between the two.
   */
  lemma EscalatesOver(s: Setup, p: Patience, l: Ledger, ev: StreamEvent, w: Turn)
    requires Consider(s, p, l, ev, w).outcome == Escalated
    ensures var log, at := Consider(s, p, l, ev, w).l.log, |l.log + w.before + w.between + w.filing.race|;
      && |log| == at + 1 && log[at].kind == "escalation"
      && (HandOff(s, log[..at]) <==> HandOff(s, w.between + w.filing.race))
  {
    var checked, late := l.log + w.before, w.between + w.filing.race;
    var log := Consider(s, p, l, ev, w).l.log;
    HandOffSplit(s, checked, late);
    assert log[..|log| - 1] == checked + late;
  }

  /** A success turn that reached the completion gate with no error and no hand-off on the log. */
  predicate UnmetTurn(s: Setup, x: State, step: Step)
  {
    step.Stream? &&
    var lim, w := AfterLimit(s, x, step.ev, step.c), step.c.turn;
    && !(lim.stopped && !lim.failed)
    && SuccessTurn(step.ev) && w.sources.Some? && w.readOk && w.nudgeOk
    && !Met(s, OthersFile(lim.l, w.before).log, w.sources.value != {})
  }

  function UnmetTurns(s: Setup, x: State, steps: seq<Step>): nat
  {
    if steps == [] then 0
    else
      var init := steps[..|steps| - 1];
      UnmetTurns(s, x, init) + (if UnmetTurn(s, Run(s, x, init), steps[|steps| - 1]) then 1 else 0)
  }

  lemma ConsiderLatches(s: Setup, p: Patience, l: Ledger, ev: StreamEvent, w: Turn)
    ensures var q := Consider(s, p, l, ev, w).p;
      && (p.fired ==> q.fired) && q.nudges >= p.nudges
      && (SuccessTurn(ev) && w.sources.Some? && w.readOk && w.nudgeOk
          && !Met(s, OthersFile(l, w.before).log, w.sources.value != {})
          ==> q.fired || q.nudges == p.nudges + 1)
  {
  }

  lemma LatchStep(s: Setup, x: State, step: Step)
    ensures x.p.fired ==> Next(s, x, step).p.fired
    ensures Next(s, x, step).p.nudges >= x.p.nudges
    ensures UnmetTurn(s, x, step) ==> Next(s, x, step).p.fired || Next(s, x, step).p.nudges == x.p.nudges + 1
  {
    if step.Stream? {
      ConsiderLatches(s, x.p, AfterLimit(s, x, step.ev, step.c).l, step.ev, step.c.turn);
    }
  }

  lemma {:induction false} UnmetTurnsAreNudged(s: Setup, log: seq<Event>, steps: seq<Step>)
    ensures var y := Run(s, Start(log), steps); y.p.fired || UnmetTurns(s, Start(log), steps) <= y.p.nudges
  {
    if steps != [] {
      UnmetTurnsAreNudged(s, log, steps[..|steps| - 1]);
      LatchStep(s, Run(s, Start(log), steps[..|steps| - 1]), steps[|steps| - 1]);
    }
  }

  /** Without a hand-off or an error the gate has latched by success turn maxNudges + 1. */
  lemma LatchesInTime(s: Setup, log: seq<Event>, steps: seq<Step>)
    requires UnmetTurns(s, Start(log), steps) > (if s.hasNudger then s.maxNudges else 0)
    ensures Run(s, Start(log), steps).p.fired
  {
    UnmetTurnsAreNudged(s, log, steps);
    RunIsBounded(s, log, steps);
  }
}
