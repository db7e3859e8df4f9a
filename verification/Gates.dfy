/**
 * The four supervisor gates of one session. Each reacts to the agent's event stream; three of them write
 * to the attempt's log, which the agent and others write to as well, at any time and in any way.
 */
module Gates {
  import opened Text
  import opened Events

  datatype WakeKind = Wants | AsyncJob

  datatype StreamKind = TurnEnd | Permission | OtherKind

  /** One normalized agent event; `contextTokens` is present on a usage frame. */
  datatype StreamEvent = StreamEvent(kind: StreamKind, turn: string, contextTokens: Option<int>, tool: Option<string>)

  datatype GateName = Completion | Limit | Protocol | Permit

  /**
   * What a gate did to the world, in order. `checked` is the length of the log the gate decided on
   * and `at` the length of the log when it acted.
   */
  datatype Act =
    | Nudge(checked: nat)
    | Wrote(gate: GateName, what: string, checked: nat, at: nat)
    | Answer(gate: GateName, allow: bool, tool: string, at: nat)
    | Halt(gate: GateName, at: nat)

  /** The attempt's log, in the order in which its files were created, and what the gates have done so far. */
  datatype Ledger = Ledger(log: seq<Event>, acts: seq<Act>)

  /** `withholds` names the tools that need a rationale newer than `since`. */
  datatype Setup = Setup(h: Digest, baseline: int, maxNudges: nat, hasNudger: bool, hasHalt: bool, threshold: int,
                         allows: string -> bool, withholds: string -> bool, since: int, actor: string, now: int)

  /** How one append fares: `prev` is the hash of the tail it reads, `race` what others file before its file is made. */
  datatype Filing = Filing(ok: bool, prev: string, race: seq<Event>)

  /** What the world answers during one completion check; None for wake sources is a read error. */
  datatype Turn = Turn(sources: Option<set<WakeKind>>, before: seq<Event>, readOk: bool, nudgeOk: bool,
                       between: seq<Event>, filing: Filing, haltOk: bool)

  const AUTO_STOP_TAG := "context-auto-stop"

  /** The highest number in the log; numbers start at 1. */
  function MaxNum(log: seq<Event>): int
  {
    if log == [] then 0
    else
      var rest, last := MaxNum(log[..|log| - 1]), log[|log| - 1].num;
      if last > rest then last else rest
  }

  lemma {:induction false} MaxNumGrows(log: seq<Event>, more: seq<Event>)
    requires log <= more
    ensures MaxNum(log) <= MaxNum(more)
    decreases |more|
  {
    if |log| < |more| {
      MaxNumGrows(log, more[..|more| - 1]);
    } else {
      assert log == more;
    }
  }

  /** The event an append makes of a draft, having read this log. */
  function Filed(s: Setup, log: seq<Event>, kind: string, tags: seq<string>, prev: string): Event
  {
    var e := Event(MaxNum(log) + 1, kind, s.now / SECOND * SECOND, s.actor, "", "", [], [], [], "", "", "", "", [], tags,
                   "", 0, prev, "", "");
    e.(hash := ComputeHash(s.h, e))
  }

  /** Others file events while a gate is between two accesses. */
  function OthersFile(l: Ledger, events: seq<Event>): Ledger
  {
    l.(log := l.log + events)
  }

  function Write(s: Setup, l: Ledger, gate: GateName, kind: string, tags: seq<string>, checked: nat, f: Filing): Ledger
  {
    Ledger(l.log + f.race + [Filed(s, l.log, kind, tags, f.prev)],
           l.acts + [Wrote(gate, kind, checked, |l.log + f.race|)])
  }

  function Reap(s: Setup, l: Ledger, gate: GateName): Ledger
  {
    if s.hasHalt then l.(acts := l.acts + [Halt(gate, |l.log|)]) else l
  }

  // ----- The completion gate -----

  predicate IsHandOff(s: Setup, e: Event)
  {
    e.num > s.baseline && (e.kind == "review" || e.kind == "escalation")
  }

  predicate IsPark(s: Setup, e: Event)
  {
    e.num > s.baseline && e.kind == "park"
  }

  predicate HandOff(s: Setup, log: seq<Event>)
  {
    exists i :: 0 <= i < |log| && IsHandOff(s, log[i])
  }

  predicate ParkedOnLog(s: Setup, log: seq<Event>)
  {
    exists i :: 0 <= i < |log| && IsPark(s, log[i])
  }

  predicate Met(s: Setup, log: seq<Event>, parkable: bool)
  {
    HandOff(s, log) || (parkable && ParkedOnLog(s, log))
  }

  datatype Outcome = Ignored | Nudged | Parked | Escalated

  /** The gate's own fields. */
  datatype Patience = Patience(nudges: nat, fired: bool)

  datatype Considered = Considered(p: Patience, l: Ledger, outcome: Outcome, failed: bool)

  predicate SuccessTurn(ev: StreamEvent)
  {
    ev.kind.TurnEnd? && ev.turn == "success"
  }

  predicate BudgetSpent(s: Setup, p: Patience)
  {
    !s.hasNudger || p.nudges >= s.maxNudges
  }

  /** What one call of the completion gate decides and does. */
  function Consider(s: Setup, p: Patience, l: Ledger, ev: StreamEvent, w: Turn): Considered
  {
    if p.fired || !SuccessTurn(ev) then Considered(p, l, Ignored, false)
    else if w.sources.None? then Considered(p, l, Ignored, true)
    else
      var parkable, l1 := w.sources.value != {}, OthersFile(l, w.before);
      if !w.readOk then Considered(p, l1, Ignored, true)
      else if Met(s, l1.log, parkable) then Considered(p, l1, Ignored, false)
      else if !BudgetSpent(s, p) then
        var p' := p.(nudges := p.nudges + 1);
        if w.nudgeOk then Considered(p', l1.(acts := l1.acts + [Nudge(|l1.log|)]), Nudged, false)
        else Considered(p', l1, Ignored, true)
      else Settle(s, p.(fired := true), OthersFile(l1, w.between), |l1.log|, w)
  }

  /** The nudge went unheeded: suspend a wakeable attempt, hand a stalled one to a human. */
  function Settle(s: Setup, p: Patience, l: Ledger, checked: nat, w: Turn): Considered
    requires w.sources.Some?
  {
    if w.sources.value != {} then
      if AsyncJob !in w.sources.value then Considered(p, l, Parked, false)
      else if !w.filing.ok then Considered(p, OthersFile(l, w.filing.race), Parked, true)
      else Considered(p, Write(s, l, Completion, "park", [], checked, w.filing), Parked, false)
    else if !w.filing.ok then Considered(p, OthersFile(l, w.filing.race), Ignored, true)
    else
      Considered(p, Reap(s, Write(s, l, Completion, "escalation", [], checked, w.filing), Completion), Escalated,
                 s.hasHalt && !w.haltOk)
  }

  /** The log shared by the gates, the agent and everyone else. */
  class Journal {
    var ledger: Ledger

    constructor (log: seq<Event>)
      ensures ledger == Ledger(log, [])
    {
      ledger := Ledger(log, []);
    }
  }

  class CompletionGate {
    const setup: Setup
    const journal: Journal
    var nudges: nat
    var fired: bool

    /** Snapshots the tail of the log as the baseline a hand-off must be newer than. */
    constructor (journal: Journal, s: Setup)
      ensures nudges == 0 && !fired && this.journal == journal
      ensures setup == s.(baseline := MaxNum(journal.ledger.log))
    {
      this.journal := journal;
      setup := s.(baseline := MaxNum(journal.ledger.log));
      nudges, fired := 0, false;
    }

    method HandedOff(parkable: bool) returns (met: bool)
      ensures met == Met(setup, journal.ledger.log, parkable)
    {
      var log := journal.ledger.log;
      var sawPark := false;
      for i := 0 to |log|
        invariant sawPark == exists j :: 0 <= j < i && IsPark(setup, log[j])
        invariant forall j :: 0 <= j < i ==> !IsHandOff(setup, log[j])
      {
        if log[i].num <= setup.baseline {
          continue;
        }
        match log[i].kind {
          case "review" | "escalation" =>
            assert IsHandOff(setup, log[i]);
            return true;
          case "park" =>
            sawPark := true;
            assert IsPark(setup, log[i]);
          case _ =>
        }
      }
      met := sawPark && parkable;
    }

    method ConsiderEvent(ev: StreamEvent, w: Turn) returns (outcome: Outcome, failed: bool)
      modifies this`nudges, this`fired, journal
      ensures Considered(Patience(nudges, fired), journal.ledger, outcome, failed) ==
              Consider(setup, Patience(old(nudges), old(fired)), old(journal.ledger), ev, w)
    {
      if fired || !ev.kind.TurnEnd? || ev.turn != "success" {
        return Ignored, false;
      }
      if w.sources.None? {
        return Ignored, true;
      }
      var parkable := w.sources.value != {};
      journal.ledger := OthersFile(journal.ledger, w.before);
      if !w.readOk {
        return Ignored, true;
      }
      var met := HandedOff(parkable);
      if met {
        return Ignored, false;
      }
      var checked := |journal.ledger.log|;
      if setup.hasNudger && nudges < setup.maxNudges {
        nudges := nudges + 1;
        if !w.nudgeOk {
          return Ignored, true;
        }
        journal.ledger := journal.ledger.(acts := journal.ledger.acts + [Nudge(checked)]);
        return Nudged, false;
      }
      journal.ledger := OthersFile(journal.ledger, w.between);
      if parkable {
        fired := true;
        if AsyncJob in w.sources.value {
          if !w.filing.ok {
            journal.ledger := OthersFile(journal.ledger, w.filing.race);
            return Parked, true;
          }
          journal.ledger := Write(setup, journal.ledger, Completion, "park", [], checked, w.filing);
        }
        return Parked, false;
      }
      fired := true;
      if !w.filing.ok {
        journal.ledger := OthersFile(journal.ledger, w.filing.race);
        return Ignored, true;
      }
      journal.ledger := Write(setup, journal.ledger, Completion, "escalation", [], checked, w.filing);
      if setup.hasHalt {
        journal.ledger := Reap(setup, journal.ledger, Completion);
        if !w.haltOk {
          return Escalated, true;
        }
      }
      return Escalated, false;
    }
  }

  // ----- The limit gate -----

  datatype Stopped = Stopped(fired: bool, l: Ledger, stopped: bool, failed: bool)

  function ConsiderLimit(s: Setup, fired: bool, l: Ledger, ev: StreamEvent, f: Filing, haltOk: bool): Stopped
  {
    if fired || s.threshold <= 0 || ev.contextTokens.None? || ev.contextTokens.value < s.threshold then
      Stopped(fired, l, false, false)
    else if !f.ok then Stopped(true, OthersFile(l, f.race), false, true)
    else
      Stopped(true, Reap(s, Write(s, l, Limit, "escalation", [AUTO_STOP_TAG], |l.log|, f), Limit), true, s.hasHalt && !haltOk)
  }

  class LimitGate {
    const setup: Setup
    const journal: Journal
    var fired: bool

    constructor (journal: Journal, s: Setup)
      ensures !fired && this.journal == journal && setup == s
    {
      this.journal, setup, fired := journal, s, false;
    }

    method ConsiderEvent(ev: StreamEvent, f: Filing, haltOk: bool) returns (stopped: bool, failed: bool)
      modifies this`fired, journal
      ensures Stopped(fired, journal.ledger, stopped, failed) ==
              ConsiderLimit(setup, old(fired), old(journal.ledger), ev, f, haltOk)
    {
      if fired || setup.threshold <= 0 || ev.contextTokens.None? {
        return false, false;
      }
      if ev.contextTokens.value < setup.threshold {
        return false, false;
      }
      fired := true;
      if !f.ok {
        journal.ledger := OthersFile(journal.ledger, f.race);
        return false, true;
      }
      journal.ledger := Write(setup, journal.ledger, Limit, "escalation", [AUTO_STOP_TAG], |journal.ledger.log|, f);
      if setup.hasHalt {
        journal.ledger := Reap(setup, journal.ledger, Limit);
        if !haltOk {
          return true, true;
        }
      }
      return true, false;
    }
  }

  // ----- The protocol gate -----

  predicate IsRationale(s: Setup, e: Event)
  {
    e.num > s.since && (e.kind == "decision" || e.kind == "gotcha")
  }

  predicate HasRationale(s: Setup, log: seq<Event>)
  {
    exists i :: 0 <= i < |log| && IsRationale(s, log[i])
  }

  /** What the world answers during one check of a permission request. */
  datatype Veto = Veto(before: seq<Event>, readOk: bool, answerOk: bool)

  /** `passed` requests go on to the permission gate. */
  datatype Vetted = Vetted(l: Ledger, passed: bool, failed: bool)

  function ConsiderProtocol(s: Setup, l: Ledger, ev: StreamEvent, v: Veto): Vetted
  {
    if !ev.kind.Permission? || ev.tool.None? || !s.withholds(ev.tool.value) then Vetted(l, true, false)
    else
      var l1 := OthersFile(l, v.before);
      if !v.readOk then Vetted(l1, false, true)
      else if HasRationale(s, l1.log) then Vetted(l1, true, false)
      else if !v.answerOk then Vetted(l1, false, true)
      else Vetted(l1.(acts := l1.acts + [Answer(Protocol, false, ev.tool.value, |l1.log|)]), false, false)
  }

  class ProtocolGate {
    const setup: Setup
    const journal: Journal

    constructor (journal: Journal, s: Setup)
      ensures this.journal == journal && setup == s.(since := MaxNum(journal.ledger.log))
    {
      this.journal := journal;
      setup := s.(since := MaxNum(journal.ledger.log));
    }

    method FindRationale() returns (found: bool)
      ensures found == HasRationale(setup, journal.ledger.log)
    {
      var log := journal.ledger.log;
      for i := 0 to |log|
        invariant forall j :: 0 <= j < i ==> !IsRationale(setup, log[j])
      {
        if log[i].num <= setup.since {
          continue;
        }
        if log[i].kind == "decision" || log[i].kind == "gotcha" {
          assert IsRationale(setup, log[i]);
          return true;
        }
      }
      found := false;
    }

    method ConsiderEvent(ev: StreamEvent, v: Veto) returns (passed: bool, failed: bool)
      modifies journal
      ensures Vetted(journal.ledger, passed, failed) == ConsiderProtocol(setup, old(journal.ledger), ev, v)
    {
      if !ev.kind.Permission? || ev.tool.None? {
        return true, false;
      }
      if !setup.withholds(ev.tool.value) {
        return true, false;
      }
      journal.ledger := OthersFile(journal.ledger, v.before);
      if !v.readOk {
        return false, true;
      }
      var justified := FindRationale();
      if justified {
        return true, false;
      }
      if !v.answerOk {
        return false, true;
      }
      var l := journal.ledger;
      journal.ledger := l.(acts := l.acts + [Answer(Protocol, false, ev.tool.value, |l.log|)]);
      return false, false;
    }
  }

  // ----- The permission gate -----

  datatype Permission = NotAsked | Allowed | Denied

  datatype Decided = Decided(l: Ledger, outcome: Permission, failed: bool)

  function ConsiderPermission(s: Setup, l: Ledger, ev: StreamEvent, answerOk: bool, f: Filing, haltOk: bool): Decided
  {
    if !ev.kind.Permission? || ev.tool.None? then Decided(l, NotAsked, false)
    else if s.allows(ev.tool.value) then
      if answerOk then Decided(l.(acts := l.acts + [Answer(Permit, true, ev.tool.value, |l.log|)]), Allowed, false)
      else Decided(l, NotAsked, true)
    else if !f.ok then Decided(OthersFile(l, f.race), NotAsked, true)
    else
      var written := Write(s, l, Permit, "escalation", [], |l.log|, f);
      Decided(Reap(s, written.(acts := written.acts + [Answer(Permit, false, ev.tool.value, |written.log|)]), Permit), Denied,
              s.hasHalt && !haltOk)
  }

  class PermissionGate {
    const setup: Setup
    const journal: Journal

    constructor (journal: Journal, s: Setup)
      ensures this.journal == journal && setup == s
    {
      this.journal, setup := journal, s;
    }

    method ConsiderEvent(ev: StreamEvent, answerOk: bool, f: Filing, haltOk: bool)
      returns (outcome: Permission, failed: bool)
      modifies journal
      ensures Decided(journal.ledger, outcome, failed) ==
              ConsiderPermission(setup, old(journal.ledger), ev, answerOk, f, haltOk)
    {
      if !ev.kind.Permission? || ev.tool.None? {
        return NotAsked, false;
      }
      var l := journal.ledger;
      if setup.allows(ev.tool.value) {
        if !answerOk {
          return NotAsked, true;
        }
        journal.ledger := l.(acts := l.acts + [Answer(Permit, true, ev.tool.value, |l.log|)]);
        return Allowed, false;
      }
      if !f.ok {
        journal.ledger := OthersFile(l, f.race);
        return NotAsked, true;
      }
      var written := Write(setup, l, Permit, "escalation", [], |l.log|, f);
      journal.ledger := written.(acts := written.acts + [Answer(Permit, false, ev.tool.value, |written.log|)]);
      if setup.hasHalt {
        journal.ledger := Reap(setup, journal.ledger, Permit);
        if !haltOk {
          return Denied, true;
        }
      }
      return Denied, false;
    }
  }
}
