/**
 * Attempt-id allocation: any number of callers race to create attempts on one ticket.
 *
 * Every file-system access of a caller is one atomic action, so a sequence of actions is one
 * interleaving of the callers' retry loops. The directory is shared; nothing else is.
 */
module Attempts {
  import opened Text
  import opened Decimal

  /** Claim collisions after which an auto-numbered caller gives up. */
  const MAX_TRIES := 8

  datatype Failure = RepoRequired | BadName | AlreadyExists | GaveUp | IOError

  /** How far one caller is. Abandoned means an error after the id was claimed. */
  datatype Phase =
    | Ready
    | Proposing(id: string)
    | Owning(id: string)
    | Described(id: string)
    | Done(id: string)
    | Abandoned(id: string)
    | Failed(why: Failure)
  {
    predicate Holds(i: string)
    {
      (Owning? || Described? || Done? || Abandoned?) && id == i
    }

    predicate Final()
    {
      Done? || Abandoned? || Failed?
    }
  }

  /**
   * One call. An empty name asks for the next number. `since` is the number of claims made before
   * the call began, and `refused` lists the ids it lost, in order.
   */
  datatype Call = Call(name: string, phase: Phase, refused: seq<string>, since: nat)

  datatype Mark = Mark(id: string, owner: nat)

  /**
   * `dirs` are the attempt directories in creation order and `files` the plain files beside them.
   * `claims`, `metas` and `created` record who made each directory, attempt.md and created event.
   */
  datatype State = State(dirs: seq<string>, files: set<string>, claims: seq<Mark>, metas: seq<Mark>,
                         created: seq<Mark>, calls: map<nat, Call>)

  /** One atomic access by one caller; `ok` is false when the file system reports another error. */
  datatype Action =
    | Open(caller: nat, name: string, repo: string)
    | Propose(caller: nat, ok: bool)
    | Claim(caller: nat, ok: bool)
    | Describe(caller: nat, ok: bool)
    | LogCreated(caller: nat, ok: bool)

  predicate ValidName(name: string)
  {
    && name != "" && name != "." && name != ".."
    && forall i :: 0 <= i < |name| ==>
         name[i] != '/' && name[i] != '\\' && name[i] != '@' && !IsSpace(name[i])
  }

  function Number(id: string): nat
  {
    match Atoi(id)
    case Some(n) => if n > 0 then n else 0
    case None => 0
  }

  function MaxNumber(ids: seq<string>): nat
  {
    if ids == [] then 0
    else
      var rest, last := MaxNumber(ids[..|ids| - 1]), Number(ids[|ids| - 1]);
      if last > rest then last else rest
  }

  function NumberedId(n: nat): string
  {
    Padded(4, n)
  }

  method NextID(ids: seq<string>) returns (id: string)
    ensures id == NumberedId(MaxNumber(ids) + 1)
  {
    var max := 0;
    for i := 0 to |ids|
      invariant max == MaxNumber(ids[..i])
    {
      assert ids[..i + 1][..i] == ids[..i];
      match Atoi(ids[i]) {
        case Some(n) =>
          if n > max {
            max := n;
          }
        case None =>
      }
    }
    assert ids[..|ids|] == ids;
    id := Padded(4, max + 1);
  }

  /** The number that the next id exceeds by one: the largest that a listed name reads as, or zero. */
  lemma {:induction false} MaxNumberExactly(ids: seq<string>)
    ensures forall i :: 0 <= i < |ids| && Atoi(ids[i]).Some? ==> Atoi(ids[i]).value <= MaxNumber(ids)
    ensures MaxNumber(ids) > 0 ==> exists i :: 0 <= i < |ids| && Atoi(ids[i]) == Some(MaxNumber(ids))
  {
    if ids != [] {
      var init := ids[..|ids| - 1];
      MaxNumberExactly(init);
      assert forall i :: 0 <= i < |init| ==> init[i] == ids[i];
      assert ids[|ids| - 1] in ids;
    }
  }

  // ----- The shared step relation -----

  function Opened(s: State, name: string, repo: string): Phase
  {
    if TrimSpace(repo) == "" then Failed(RepoRequired)
    else if name == "" then Ready
    else if !ValidName(name) then Failed(BadName)
    else if name in s.dirs then Failed(AlreadyExists)
    else Proposing(name)
  }

  /** The refusals before anything is made, in their order. */
  lemma OpensExactly(s: State, c: nat, name: string, repo: string)
    requires c !in s.calls
    ensures var t := Next(s, Open(c, name, repo));
      && c in t.calls && t == s.(calls := t.calls) && t.calls == s.calls[c := t.calls[c]]
      && t.calls[c].name == name && t.calls[c].refused == []
      && var p := t.calls[c].phase;
      && (p == Failed(RepoRequired) <==> TrimSpace(repo) == "")
      && (TrimSpace(repo) != "" && name == "" ==> p == Ready)
      && (TrimSpace(repo) != "" && name != "" ==>
            p == if name == "." || name == ".." || exists i :: 0 <= i < |name| && (name[i] in "/\\@" || IsSpace(name[i]))
                 then Failed(BadName) else if name in s.dirs then Failed(AlreadyExists) else Proposing(name))
  {
  }

  function Taken(s: State, id: string): bool
  {
    id in s.dirs || id in s.files
  }

  /** The phase after losing an id: a named caller fails, a numbered one retries up to the limit. */
  function Lost(call: Call, id: string): Call
  {
    var refused := call.refused + [id];
    call.(refused := refused,
          phase := if call.name != "" then Failed(AlreadyExists)
                   else if |refused| >= MAX_TRIES then Failed(GaveUp) else Ready)
  }

  function At(s: State, c: nat, phase: Phase): State
    requires c in s.calls
  {
    s.(calls := s.calls[c := s.calls[c].(phase := phase)])
  }

  /** The effect of one action; an action its caller is not ready for changes nothing. */
  function Next(s: State, a: Action): State
  {
    var c := a.caller;
    if a.Open? then
      if c in s.calls then s
      else s.(calls := s.calls[c := Call(a.name, Opened(s, a.name, a.repo), [], |s.claims|)])
    else if c !in s.calls then s
    else
      var call := s.calls[c];
      match a
      case Propose(_, ok) =>
        if !call.phase.Ready? then s
        else At(s, c, if ok then Proposing(NumberedId(MaxNumber(s.dirs) + 1)) else Failed(IOError))
      case Claim(_, ok) =>
        if !call.phase.Proposing? then s
        else if Taken(s, call.phase.id) then s.(calls := s.calls[c := Lost(call, call.phase.id)])
        else if !ok then At(s, c, Failed(IOError))
        else
          At(s, c, Owning(call.phase.id))
          .(dirs := s.dirs + [call.phase.id], claims := s.claims + [Mark(call.phase.id, c)])
      case Describe(_, ok) =>
        if !call.phase.Owning? then s
        else if !ok then At(s, c, Abandoned(call.phase.id))
        else At(s, c, Described(call.phase.id)).(metas := s.metas + [Mark(call.phase.id, c)])
      case LogCreated(_, ok) =>
        if !call.phase.Described? then s
        else if !ok then At(s, c, Abandoned(call.phase.id))
        else At(s, c, Done(call.phase.id)).(created := s.created + [Mark(call.phase.id, c)])
  }

  function Run(s: State, acts: seq<Action>): State
  {
    if acts == [] then s else Next(Run(s, acts[..|acts| - 1]), acts[|acts| - 1])
  }

  function Start(dirs: seq<string>, files: set<string>): State
  {
    State(dirs, files, [], [], [], map[])
  }

  // ----- Exclusive ownership -----

  ghost predicate Distinct(marks: seq<Mark>)
  {
    forall j, k :: 0 <= j < k < |marks| ==> marks[j].id != marks[k].id && marks[j].owner != marks[k].owner
  }

  function Ids(marks: seq<Mark>): seq<string>
  {
    seq(|marks|, i requires 0 <= i < |marks| => marks[i].id)
  }

  /** The claim history, the directory and the callers' own phases agree on who holds which id. */
  ghost predicate ClaimsAgree(dirs: seq<string>, s: State)
  {
    && s.dirs == dirs + Ids(s.claims)
    && Distinct(s.claims)
    && (forall m :: m in s.claims ==> m.id !in dirs && m.owner in s.calls && s.calls[m.owner].phase.Holds(m.id))
    && (forall c, i :: c in s.calls && s.calls[c].phase.Holds(i) ==> Mark(i, c) in s.claims)
  }

  predicate Past(phase: Phase, id: string)
  {
    phase == Described(id) || phase == Done(id) || phase == Abandoned(id)
  }

  /** Each attempt.md and each created event was written once, by the holder of the id, in that order. */
  ghost predicate RecordsAgree(s: State)
  {
    && Distinct(s.metas) && Distinct(s.created)
    && (forall m :: m in s.metas ==> m.owner in s.calls && Past(s.calls[m.owner].phase, m.id))
    && (forall m :: m in s.created ==> m.owner in s.calls && s.calls[m.owner].phase == Done(m.id))
    && (forall c, i :: c in s.calls && s.calls[c].phase in {Described(i), Done(i)} ==> Mark(i, c) in s.metas)
    && (forall c, i :: c in s.calls && s.calls[c].phase == Done(i) ==> Mark(i, c) in s.created)
  }

  lemma ClaimedAreListed(dirs: seq<string>, s: State)
    requires ClaimsAgree(dirs, s)
    ensures forall m :: m in s.claims ==> m.id in s.dirs
  {
    forall m | m in s.claims
      ensures m.id in s.dirs
    {
      var k :| 0 <= k < |s.claims| && s.claims[k] == m;
      assert s.dirs[|dirs| + k] == m.id;
    }
  }

  lemma DistinctAppend(marks: seq<Mark>, m: Mark)
    requires Distinct(marks)
    requires forall x :: x in marks ==> x.id != m.id && x.owner != m.owner
    ensures Distinct(marks + [m])
  {
  }

  lemma ClaimsAfterClaim(dirs: seq<string>, s: State, c: nat, id: string, t: State)
    requires ClaimsAgree(dirs, s) && c in s.calls && s.calls[c].phase.Proposing? && id !in s.dirs
    requires t.calls == s.calls[c := s.calls[c].(phase := Owning(id))]
    requires t.dirs == s.dirs + [id] && t.claims == s.claims + [Mark(id, c)]
    ensures ClaimsAgree(dirs, t)
  {
    ClaimedAreListed(dirs, s);
    assert forall m :: m in s.claims ==> m.owner != c;
    DistinctAppend(s.claims, Mark(id, c));
    assert t.dirs == dirs + Ids(t.claims) by {
      assert Ids(t.claims) == Ids(s.claims) + [id];
    }
    assert id !in dirs;
    assert forall m :: m in t.claims <==> m in s.claims || m == Mark(id, c);
    assert forall d, i :: d in s.calls && d != c && s.calls[d].phase.Holds(i) ==> Mark(i, d) in s.claims;
  }

  /** Any other step leaves the claims alone, and its caller holds afterwards what it held before. */
  lemma ClaimsAfterOther(dirs: seq<string>, s: State, t: State, c: nat)
    requires ClaimsAgree(dirs, s) && t.claims == s.claims && t.dirs == s.dirs
    requires c in t.calls && t.calls == s.calls[c := t.calls[c]]
    requires forall i :: t.calls[c].phase.Holds(i) <==> c in s.calls && s.calls[c].phase.Holds(i)
    ensures ClaimsAgree(dirs, t)
  {
  }

  lemma ClaimsStep(dirs: seq<string>, s: State, a: Action)
    requires ClaimsAgree(dirs, s)
    ensures ClaimsAgree(dirs, Next(s, a))
  {
    var t, c := Next(s, a), a.caller;
    if t.claims != s.claims {
      ClaimsAfterClaim(dirs, s, c, s.calls[c].phase.id, t);
    } else if t != s {
      ClaimsAfterOther(dirs, s, t, c);
    }
  }

  /** Two callers never hold the same id. */
  lemma HoldersDiffer(dirs: seq<string>, s: State, c: nat, d: nat, id: string)
    requires ClaimsAgree(dirs, s) && c in s.calls && d in s.calls
    requires s.calls[c].phase.Holds(id) && s.calls[d].phase.Holds(id)
    ensures c == d
  {
    assert Mark(id, c) in s.claims && Mark(id, d) in s.claims;
  }

  lemma RecordsAfterDescribe(dirs: seq<string>, s: State, c: nat, id: string, t: State)
    requires ClaimsAgree(dirs, s) && RecordsAgree(s) && c in s.calls && s.calls[c].phase == Owning(id)
    requires t.calls == s.calls[c := s.calls[c].(phase := Described(id))]
    requires t.metas == s.metas + [Mark(id, c)] && t.created == s.created
    ensures RecordsAgree(t)
  {
    forall m | m in s.metas
      ensures m.id != id && m.owner != c
    {
      if m.id == id { HoldersDiffer(dirs, s, c, m.owner, id); }
    }
    DistinctAppend(s.metas, Mark(id, c));
    assert forall m :: m in t.metas <==> m in s.metas || m == Mark(id, c);
  }

  lemma RecordsAfterLog(dirs: seq<string>, s: State, c: nat, id: string, t: State)
    requires ClaimsAgree(dirs, s) && RecordsAgree(s) && c in s.calls && s.calls[c].phase == Described(id)
    requires t.calls == s.calls[c := s.calls[c].(phase := Done(id))]
    requires t.metas == s.metas && t.created == s.created + [Mark(id, c)]
    ensures RecordsAgree(t)
  {
    forall m | m in s.created
      ensures m.id != id && m.owner != c
    {
      if m.id == id { HoldersDiffer(dirs, s, c, m.owner, id); }
    }
    DistinctAppend(s.created, Mark(id, c));
    assert forall m :: m in t.created <==> m in s.created || m == Mark(id, c);
  }

  lemma RecordsAfterOther(s: State, t: State, c: nat)
    requires RecordsAgree(s) && t.metas == s.metas && t.created == s.created
    requires c in t.calls && t.calls == s.calls[c := t.calls[c]]
    requires c in s.calls ==> !s.calls[c].phase.Done? && !s.calls[c].phase.Abandoned?
    requires c in s.calls && s.calls[c].phase.Described? ==> t.calls[c].phase == Abandoned(s.calls[c].phase.id)
    requires !t.calls[c].phase.Described? && !t.calls[c].phase.Done?
    ensures RecordsAgree(t)
  {
  }

  lemma RecordsStep(dirs: seq<string>, s: State, a: Action)
    requires ClaimsAgree(dirs, s) && RecordsAgree(s)
    ensures RecordsAgree(Next(s, a))
  {
    var t, c := Next(s, a), a.caller;
    if t.metas != s.metas {
      RecordsAfterDescribe(dirs, s, c, s.calls[c].phase.id, t);
    } else if t.created != s.created {
      RecordsAfterLog(dirs, s, c, s.calls[c].phase.id, t);
    } else if t != s {
      RecordsAfterOther(s, t, c);
    }
  }

  lemma {:induction false} OwnedAlways(dirs: seq<string>, files: set<string>, acts: seq<Action>)
    ensures ClaimsAgree(dirs, Run(Start(dirs, files), acts))
    ensures RecordsAgree(Run(Start(dirs, files), acts))
  {
    if acts != [] {
      var s := Run(Start(dirs, files), acts[..|acts| - 1]);
      OwnedAlways(dirs, files, acts[..|acts| - 1]);
      ClaimsStep(dirs, s, acts[|acts| - 1]);
      RecordsStep(dirs, s, acts[|acts| - 1]);
    } else {
      assert dirs + Ids([]) == dirs;
    }
  }

  /** The id occurs in exactly one record, and that record names the owner. */
  ghost predicate RecordedOnce(marks: seq<Mark>, id: string, owner: nat)
  {
    exists k :: 0 <= k < |marks| && marks[k] == Mark(id, owner)
             && forall j :: 0 <= j < |marks| && j != k ==> marks[j].id != id
  }

  lemma DistinctRecordedOnce(marks: seq<Mark>, m: Mark)
    requires Distinct(marks) && m in marks
    ensures RecordedOnce(marks, m.id, m.owner)
  {
    var k :| 0 <= k < |marks| && marks[k] == m;
  }

  /** In every interleaving, two calls that succeed return different ids. */
  lemma SuccessesDiffer(dirs: seq<string>, files: set<string>, acts: seq<Action>, c: nat, d: nat, id: string)
    requires var s := Run(Start(dirs, files), acts);
      c in s.calls && d in s.calls && s.calls[c].phase == Done(id) && s.calls[d].phase == Done(id)
    ensures c == d
  {
    OwnedAlways(dirs, files, acts);
    HoldersDiffer(dirs, Run(Start(dirs, files), acts), c, d, id);
  }

  /** In every interleaving, a success made a new directory and wrote its two records exactly once. */
  lemma SuccessIsRecorded(dirs: seq<string>, files: set<string>, acts: seq<Action>, c: nat)
    requires var s := Run(Start(dirs, files), acts); c in s.calls && s.calls[c].phase.Done?
    ensures var s := Run(Start(dirs, files), acts);
      var id := s.calls[c].phase.id;
      && id in s.dirs && id !in dirs && RecordedOnce(s.claims, id, c)
      && RecordedOnce(s.metas, id, c) && RecordedOnce(s.created, id, c)
  {
    var s := Run(Start(dirs, files), acts);
    OwnedAlways(dirs, files, acts);
    ClaimedAreListed(dirs, s);
    var m := Mark(s.calls[c].phase.id, c);
    assert s.calls[c].phase.Holds(m.id);
    DistinctRecordedOnce(s.claims, m);
    DistinctRecordedOnce(s.metas, m);
    DistinctRecordedOnce(s.created, m);
  }

  /** In every interleaving, a claimed id has one owner, and no one else writes its records. */
  lemma OnlyOwnersWrite(dirs: seq<string>, files: set<string>, acts: seq<Action>, m: Mark)
    requires var s := Run(Start(dirs, files), acts); m in s.claims || m in s.metas || m in s.created
    ensures var s := Run(Start(dirs, files), acts);
      && m.id !in dirs && m.owner in s.calls && s.calls[m.owner].phase.Holds(m.id)
      && RecordedOnce(s.claims, m.id, m.owner)
      && (forall x :: (x in s.metas || x in s.created) && x.id == m.id ==> x == m)
  {
    var s := Run(Start(dirs, files), acts);
    OwnedAlways(dirs, files, acts);
    forall x | x in s.claims || x in s.metas || x in s.created
      ensures x in s.claims
    {
      assert s.calls[x.owner].phase.Holds(x.id);
      assert x == Mark(x.id, x.owner);
    }
    DistinctRecordedOnce(s.claims, m);
  }

  // ----- What giving up proves -----

  lemma {:induction false} MaxNumberBounds(ids: seq<string>, id: string)
    requires id in ids
    ensures Number(id) <= MaxNumber(ids)
  {
    if id != ids[|ids| - 1] {
      assert ids == ids[..|ids| - 1] + [ids[|ids| - 1]];
      MaxNumberBounds(ids[..|ids| - 1], id);
    }
  }

  lemma NextIsFresh(ids: seq<string>)
    ensures NumberedId(MaxNumber(ids) + 1) !in ids
    ensures Number(NumberedId(MaxNumber(ids) + 1)) == MaxNumber(ids) + 1
  {
    AtoiOfPadded(4, MaxNumber(ids) + 1);
    if NumberedId(MaxNumber(ids) + 1) in ids { MaxNumberBounds(ids, NumberedId(MaxNumber(ids) + 1)); }
  }

  ghost predicate ClaimedSince(claims: seq<Mark>, since: nat, id: string)
  {
    exists k :: since <= k < |claims| && claims[k].id == id
  }

  /** A plain file can only block a numbered caller if its name is a number not yet used. */
  ghost predicate NoStray(dirs: seq<string>, files: set<string>)
  {
    forall n: nat :: n > MaxNumber(dirs) ==> NumberedId(n) !in files
  }

  ghost predicate Numbered(id: string)
  {
    id == NumberedId(Number(id))
  }

  /** The ids an auto-numbered caller lost: increasing numbers, each claimed while it was running. */
  ghost predicate Losses(call: Call, claims: seq<Mark>)
  {
    && call.since <= |claims| && |call.refused| <= MAX_TRIES
    && (forall i :: 0 <= i < |call.refused| ==>
          Numbered(call.refused[i]) && ClaimedSince(claims, call.since, call.refused[i]))
    && (forall i, j :: 0 <= i < j < |call.refused| ==> Number(call.refused[i]) < Number(call.refused[j]))
    && (call.phase == Failed(GaveUp) ==> |call.refused| == MAX_TRIES)
    && (call.phase.Ready? || call.phase.Proposing? ==> |call.refused| < MAX_TRIES)
  }

  ghost predicate Pending(call: Call, dirs: seq<string>, s: State)
  {
    call.phase.Proposing? ==>
      var id := call.phase.id;
      && Numbered(id) && Number(id) > MaxNumber(dirs)
      && (forall i :: 0 <= i < |call.refused| ==> Number(call.refused[i]) < Number(id))
      && (id in s.dirs ==> ClaimedSince(s.claims, call.since, id))
  }

  ghost predicate Retries(dirs: seq<string>, files: set<string>, s: State)
  {
    && s.files == files
    && dirs <= s.dirs
    && (forall c :: c in s.calls ==> s.calls[c].since <= |s.claims|)
    && (forall c :: c in s.calls && s.calls[c].name == "" ==> Losses(s.calls[c], s.claims) && Pending(s.calls[c], dirs, s))
  }

  lemma ClaimedIsListed(claims: seq<Mark>, since: nat, id: string, dirs: seq<string>)
    requires ClaimedSince(claims, since, id) && forall m :: m in claims ==> m.id in dirs
    ensures id in dirs
  {
    var k :| since <= k < |claims| && claims[k].id == id;
    assert claims[k] in claims;
  }

  lemma ProposeKeeps(dirs: seq<string>, s: State, call: Call)
    requires call.name == "" && Losses(call, s.claims) && call.phase.Ready?
    requires ClaimsAgree(dirs, s)
    ensures var c' := call.(phase := Proposing(NumberedId(MaxNumber(s.dirs) + 1)));
      Losses(c', s.claims) && Pending(c', dirs, s)
  {
    NextIsFresh(s.dirs);
    ClaimedAreListed(dirs, s);
    forall i | 0 <= i < |call.refused|
      ensures Number(call.refused[i]) <= MaxNumber(s.dirs)
    {
      assert ClaimedSince(s.claims, call.since, call.refused[i]);
      ClaimedIsListed(s.claims, call.since, call.refused[i], s.dirs);
      MaxNumberBounds(s.dirs, call.refused[i]);
    }
    MaxNumberGrows(dirs, s.dirs);
  }

  lemma {:induction false} MaxNumberGrows(ids: seq<string>, more: seq<string>)
    requires ids <= more
    ensures MaxNumber(ids) <= MaxNumber(more)
  {
    if |more| > |ids| {
      assert ids <= more[..|more| - 1];
      MaxNumberGrows(ids, more[..|more| - 1]);
    } else {
      assert ids == more;
    }
  }

  lemma LoseKeeps(dirs: seq<string>, files: set<string>, s: State, call: Call)
    requires call.name == "" && Losses(call, s.claims) && Pending(call, dirs, s) && call.phase.Proposing?
    requires NoStray(dirs, files) && s.files == files && Taken(s, call.phase.id)
    ensures var c' := Lost(call, call.phase.id); Losses(c', s.claims) && Pending(c', dirs, s)
  {
  }

  ghost predicate OneMoreClaim(s: State, t: State)
  {
    && |t.claims| == |s.claims| + 1 && s.claims <= t.claims
    && t.dirs == s.dirs + [t.claims[|s.claims|].id]
  }

  lemma MoreClaims(dirs: seq<string>, s: State, t: State, call: Call)
    requires Losses(call, s.claims) && Pending(call, dirs, s)
    requires (t.dirs == s.dirs && t.claims == s.claims) || OneMoreClaim(s, t)
    ensures Losses(call, t.claims) && Pending(call, dirs, t)
  {
    if t.claims != s.claims {
      assert forall k :: 0 <= k < |s.claims| ==> t.claims[k] == s.claims[k];
      assert forall id :: ClaimedSince(s.claims, call.since, id) ==> ClaimedSince(t.claims, call.since, id);
    }
  }

  lemma StepClaims(s: State, a: Action)
    ensures var t := Next(s, a); OneMoreClaim(s, t) || (t.claims == s.claims && t.dirs == s.dirs)
  {
  }

  /** A caller past its retries has nothing more to lose. */
  lemma LaterPhase(dirs: seq<string>, t: State, call: Call, phase: Phase)
    requires Losses(call, t.claims) && !phase.Ready? && !phase.Proposing? && phase != Failed(GaveUp)
    ensures Losses(call.(phase := phase), t.claims) && Pending(call.(phase := phase), dirs, t)
  {
  }

  /** What one action does to the numbered caller that takes it. */
  lemma OwnStepKeeps(dirs: seq<string>, files: set<string>, s: State, a: Action)
    requires Retries(dirs, files, s) && NoStray(dirs, files) && ClaimsAgree(dirs, s)
    requires a.caller in s.calls && s.calls[a.caller].name == ""
    ensures var t := Next(s, a); Losses(t.calls[a.caller], t.claims) && Pending(t.calls[a.caller], dirs, t)
  {
    var t, call := Next(s, a), s.calls[a.caller];
    if a.Propose? && call.phase.Ready? && a.ok {
      ProposeKeeps(dirs, s, call);
    } else if a.Claim? && call.phase.Proposing? && Taken(s, call.phase.id) {
      LoseKeeps(dirs, files, s, call);
    } else {
      StepClaims(s, a);
      MoreClaims(dirs, s, t, call);
      var phase := t.calls[a.caller].phase;
      assert t.calls[a.caller] == call.(phase := phase);
      if phase != call.phase { LaterPhase(dirs, t, call, phase); }
    }
  }

  lemma RetriesStep(dirs: seq<string>, files: set<string>, s: State, a: Action)
    requires Retries(dirs, files, s) && NoStray(dirs, files) && ClaimsAgree(dirs, s)
    ensures Retries(dirs, files, Next(s, a))
  {
    var t, c := Next(s, a), a.caller;
    StepClaims(s, a);
    forall d | d in t.calls && t.calls[d].name == ""
      ensures Losses(t.calls[d], t.claims) && Pending(t.calls[d], dirs, t)
    {
      if d in s.calls && d == c {
        OwnStepKeeps(dirs, files, s, a);
      } else if d in s.calls {
        MoreClaims(dirs, s, t, s.calls[d]);
      }
    }
  }

  lemma {:induction false} RetriesAlways(dirs: seq<string>, files: set<string>, acts: seq<Action>)
    requires NoStray(dirs, files)
    ensures Retries(dirs, files, Run(Start(dirs, files), acts))
  {
    if acts != [] {
      var before := acts[..|acts| - 1];
      RetriesAlways(dirs, files, before);
      OwnedAlways(dirs, files, before);
      RetriesStep(dirs, files, Run(Start(dirs, files), before), acts[|acts| - 1]);
    }
  }

  /** The ids that other callers claimed after caller c began. */
  ghost function RivalIds(s: State, c: nat): set<string>
    requires c in s.calls
  {
    set k | s.calls[c].since <= k < |s.claims| && s.claims[k].owner != c :: s.claims[k].id
  }

  /** "Gave up after 8 id collisions" is honest: at least 8 ids went to other callers meanwhile. */
  ghost predicate Honest(s: State, c: nat)
  {
    c in s.calls && s.calls[c].phase == Failed(GaveUp) ==> |RivalIds(s, c)| >= MAX_TRIES
  }

  lemma {:induction false} IncreasingIdsCount(ids: seq<string>, all: set<string>)
    requires forall i, j :: 0 <= i < j < |ids| ==> Number(ids[i]) < Number(ids[j])
    requires forall i :: 0 <= i < |ids| ==> ids[i] in all
    ensures |all| >= |ids|
  {
    if ids != [] {
      var last := ids[|ids| - 1];
      IncreasingIdsCount(ids[..|ids| - 1], all - {last});
    }
  }

  ghost predicate OnlyNumberedGaveUp(s: State)
  {
    forall c :: c in s.calls && s.calls[c].phase == Failed(GaveUp) ==> s.calls[c].name == ""
  }

  lemma {:induction false} OnlyNumberedGiveUp(dirs: seq<string>, files: set<string>, acts: seq<Action>)
    ensures OnlyNumberedGaveUp(Run(Start(dirs, files), acts))
  {
    if acts != [] {
      OnlyNumberedGiveUp(dirs, files, acts[..|acts| - 1]);
    }
  }

  lemma LostToRivals(s: State, c: nat, id: string)
    requires c in s.calls && ClaimedSince(s.claims, s.calls[c].since, id)
    requires forall k :: 0 <= k < |s.claims| ==> s.claims[k].owner != c
    ensures id in RivalIds(s, c)
  {
    var k :| s.calls[c].since <= k < |s.claims| && s.claims[k].id == id;
  }

  lemma ClaimedByOthers(dirs: seq<string>, s: State, c: nat)
    requires ClaimsAgree(dirs, s) && c in s.calls && s.calls[c].phase.Failed?
    ensures forall k :: 0 <= k < |s.claims| ==> s.claims[k].owner != c
  {
    assert forall k :: 0 <= k < |s.claims| ==> s.claims[k] in s.claims;
  }

  lemma GiveUpIsHonest(dirs: seq<string>, files: set<string>, acts: seq<Action>, c: nat)
    requires NoStray(dirs, files)
    ensures Honest(Run(Start(dirs, files), acts), c)
  {
    var s := Run(Start(dirs, files), acts);
    if c in s.calls && s.calls[c].phase == Failed(GaveUp) {
      OnlyNumberedGiveUp(dirs, files, acts);
      RetriesAlways(dirs, files, acts);
      OwnedAlways(dirs, files, acts);
      ClaimedByOthers(dirs, s, c);
      var refused := s.calls[c].refused;
      assert Losses(s.calls[c], s.claims);
      forall i | 0 <= i < |refused|
        ensures refused[i] in RivalIds(s, c)
      {
        LostToRivals(s, c, refused[i]);
      }
      IncreasingIdsCount(refused, RivalIds(s, c));
    }
  }

  // ----- The exact condition: a plain file with a fresh number as its name breaks it -----

  lemma {:induction false} FirstStray(dirs: seq<string>, files: set<string>, n: nat) returns (m: nat)
    requires n > MaxNumber(dirs) && NumberedId(n) in files
    ensures MaxNumber(dirs) < m && NumberedId(m) in files
    ensures forall k :: MaxNumber(dirs) < k < m ==> NumberedId(k) !in files
    decreases n
  {
    if exists k :: MaxNumber(dirs) < k < n && NumberedId(k) in files {
      var k :| MaxNumber(dirs) < k < n && NumberedId(k) in files;
      m := FirstStray(dirs, files, k);
    } else {
      m := n;
    }
  }

  lemma NumberedIdIsValid(n: nat)
    ensures ValidName(NumberedId(n)) && NumberedId(n) != ""
  {
    assert |NumberedId(n)| >= 4;
    assert forall i :: 0 <= i < |NumberedId(n)| ==> IsDigit(NumberedId(n)[i]);
  }

  lemma RunStep(s: State, acts: seq<Action>, a: Action)
    ensures Run(s, acts + [a]) == Next(Run(s, acts), a)
  {
    assert (acts + [a])[..|acts|] == acts;
  }

  /** Caller c has lost k times and nothing else has happened since t. */
  ghost predicate Spun(t: State, u: State, c: nat, k: nat)
  {
    && c in u.calls && u == t.(calls := u.calls) && |u.calls[c].refused| == k
    && u.calls[c].name == "" && u.calls[c].since == |t.claims|
    && u.calls[c].phase == if k == MAX_TRIES then Failed(GaveUp) else Ready
  }

  lemma SpinOnce(t: State, u: State, c: nat, k: nat)
    requires k < MAX_TRIES && Spun(t, u, c, k)
    requires NumberedId(MaxNumber(t.dirs) + 1) in t.files
    ensures Spun(t, Next(Next(u, Propose(c, true)), Claim(c, true)), c, k + 1)
  {
  }

  /** Listing and claiming k times against a directory whose next number is taken by a plain file. */
  lemma {:induction false} Spin(s: State, acts: seq<Action>, t: State, c: nat, k: nat) returns (more: seq<Action>)
    requires k <= MAX_TRIES && Spun(t, Run(s, acts), c, 0)
    requires NumberedId(MaxNumber(t.dirs) + 1) in t.files
    ensures Spun(t, Run(s, more), c, k)
    decreases k
  {
    if k == 0 {
      more := acts;
    } else {
      var before := Spin(s, acts, t, c, k - 1);
      var list, claim := Propose(c, true), Claim(c, true);
      more := before + [list] + [claim];
      RunStep(s, before, list);
      RunStep(s, before + [list], claim);
      SpinOnce(t, Run(s, before), c, k - 1);
    }
  }

  lemma SpunIsDishonest(t: State, u: State, c: nat)
    requires Spun(t, u, c, MAX_TRIES)
    ensures !Honest(u, c)
  {
    assert RivalIds(u, c) == {};
  }

  lemma MaxNumberOfNext(ids: seq<string>, n: nat)
    requires n > MaxNumber(ids)
    ensures MaxNumber(ids + [NumberedId(n)]) == n
  {
    AtoiOfPadded(4, n);
    assert (ids + [NumberedId(n)])[..|ids|] == ids;
  }

  lemma NextIsNew(ids: seq<string>, n: nat)
    requires n > MaxNumber(ids)
    ensures NumberedId(n) !in ids
  {
    AtoiOfPadded(4, n);
    if NumberedId(n) in ids { MaxNumberBounds(ids, NumberedId(n)); }
  }

  /** A caller that names a free number gets it. */
  lemma ClaimNamed(s: State, n: nat)
    requires s.calls == map[] && n > MaxNumber(s.dirs) && NumberedId(n) !in s.files
    ensures var t := Next(Next(s, Open(1, NumberedId(n), "repo")), Claim(1, true));
      0 !in t.calls && t.files == s.files && MaxNumber(t.dirs) == n
  {
    NumberedIdIsValid(n);
    NextIsNew(s.dirs, n);
    MaxNumberOfNext(s.dirs, n);
    TrimTight("repo");
  }

  lemma RunTwo(s: State, a: Action, b: Action)
    ensures Run(s, [a, b]) == Next(Next(s, a), b)
  {
    assert [a, b][..1] == [a] && [a][..0] == [];
    assert Run(s, [a]) == Next(s, a);
  }

  predicate StrayNext(t: State, files: set<string>)
  {
    0 !in t.calls && t.files == files && NumberedId(MaxNumber(t.dirs) + 1) in files
  }

  lemma StrayAfterClaim(s: State, n: nat)
    requires s.calls == map[] && n > MaxNumber(s.dirs) && NumberedId(n) !in s.files && NumberedId(n + 1) in s.files
    ensures StrayNext(Run(s, [Open(1, NumberedId(n), "repo"), Claim(1, true)]), s.files)
  {
    ClaimNamed(s, n);
    RunTwo(s, Open(1, NumberedId(n), "repo"), Claim(1, true));
  }

  /** Actions that leave the stray number next in line, and caller 0 idle. */
  lemma StrayIsNext(dirs: seq<string>, files: set<string>) returns (acts: seq<Action>)
    requires !NoStray(dirs, files)
    ensures StrayNext(Run(Start(dirs, files), acts), files)
  {
    var n: nat :| n > MaxNumber(dirs) && NumberedId(n) in files;
    n := FirstStray(dirs, files, n);
    if n == MaxNumber(dirs) + 1 {
      acts := [];
    } else {
      StrayAfterClaim(Start(dirs, files), n - 1);
      acts := [Open(1, NumberedId(n - 1), "repo"), Claim(1, true)];
    }
  }

  /** With such a file, one caller alone can be told that 8 ids collided while nobody claimed any. */
  lemma StrayBreaksHonesty(dirs: seq<string>, files: set<string>)
    requires !NoStray(dirs, files)
    ensures exists acts, c :: !Honest(Run(Start(dirs, files), acts), c)
  {
    var s0 := Start(dirs, files);
    var acts := StrayIsNext(dirs, files);
    var t := Run(s0, acts);
    RunStep(s0, acts, Open(0, "", "repo"));
    TrimTight("repo");
    var more := Spin(s0, acts + [Open(0, "", "repo")], t, 0, MAX_TRIES);
    SpunIsDishonest(t, Run(s0, more), 0);
  }

  /** Giving up always means 8 ids went to others, exactly when no stray file can block a number. */
  lemma HonestyExactlyWithoutStrays(dirs: seq<string>, files: set<string>)
    ensures NoStray(dirs, files) <==> forall acts, c :: Honest(Run(Start(dirs, files), acts), c)
  {
    if NoStray(dirs, files) {
      forall acts, c
        ensures Honest(Run(Start(dirs, files), acts), c)
      {
        GiveUpIsHonest(dirs, files, acts, c);
      }
    } else {
      StrayBreaksHonesty(dirs, files);
    }
  }

  // ----- The retry loop itself, run against a disk that other callers keep changing -----

  predicate Without(acts: seq<Action>, c: nat)
  {
    forall i :: 0 <= i < |acts| ==> acts[i].caller != c
  }

  lemma {:induction false} OthersKeepCall(s: State, acts: seq<Action>, c: nat)
    requires Without(acts, c)
    ensures c in Run(s, acts).calls <==> c in s.calls
    ensures c in s.calls ==> Run(s, acts).calls[c] == s.calls[c]
  {
    if acts != [] { OthersKeepCall(s, acts[..|acts| - 1], c); }
  }

  /** The shared directory. Its trace is every action any caller has taken on it. */
  class Disk {
    const dirs: seq<string>
    const files: set<string>
    var s: State
    ghost var trace: seq<Action>

    ghost predicate Valid()
      reads this
    {
      s == Run(Start(dirs, files), trace)
    }

    constructor (dirs: seq<string>, files: set<string>)
      ensures Valid() && s == Start(dirs, files) && this.dirs == dirs && this.files == files
    {
      this.dirs, this.files := dirs, files;
      s, trace := Start(dirs, files), [];
    }

    method Do(a: Action)
      requires Valid()
      modifies this
      ensures Valid() && s == Next(old(s), a) && trace == old(trace) + [a]
    {
      RunStep(Start(dirs, files), trace, a);
      s, trace := Next(s, a), trace + [a];
    }

    /** Caller c waits while the others take some actions. */
    method Wait(c: nat, others: seq<Action>)
      requires Valid() && Without(others, c)
      modifies this
      ensures Valid() && s == Run(old(s), others)
      ensures c in s.calls <==> c in old(s.calls)
      ensures c in s.calls ==> s.calls[c] == old(s.calls)[c]
    {
      for i := 0 to |others|
        invariant Valid() && s == Run(old(s), others[..i])
      {
        RunStep(old(s), others[..i], others[i]);
        assert others[..i + 1] == others[..i] + [others[i]];
        Do(others[i]);
      }
      assert others[..|others|] == others;
      OthersKeepCall(old(s), others, c);
    }

    /** One try: an auto-numbered caller lists and proposes first; then the id is claimed. */
    method Try(c: nat, named: bool, list: seq<Action>, listed: bool, claim: seq<Action>, claimed: bool)
      requires Valid() && c in s.calls && Without(list, c) && Without(claim, c)
      requires named == (s.calls[c].name != "")
      requires if named then s.calls[c].phase.Proposing? else s.calls[c].phase.Ready?
      modifies this
      ensures Valid() && c in s.calls && s.calls[c].name == old(s.calls)[c].name
      ensures var call, was := s.calls[c], old(s.calls)[c];
        || (call.phase.Owning? && (named ==> call.phase.id == was.phase.id))
        || call.phase == Failed(IOError)
        || (|call.refused| == |was.refused| + 1 &&
            call.phase == if named then Failed(AlreadyExists)
                          else if |call.refused| >= MAX_TRIES then Failed(GaveUp) else Ready)
    {
      if !named {
        Wait(c, list);
        var next := NextID(s.dirs);
        Do(Propose(c, listed));
        if !listed {
          return;
        }
        assert s.calls[c].phase.id == next;
      }
      Wait(c, claim);
      Do(Claim(c, claimed));
    }

    /**
     * Creates an attempt as caller c. `others` are the actions that slip in before each access of
     * this caller and `ok` says which accesses the file system lets through.
     */
    method Create(c: nat, name: string, repo: string, others: nat -> seq<Action>, ok: nat -> bool)
      returns (result: Phase)
      requires Valid() && c !in s.calls
      requires forall i :: Without(others(i), c)
      modifies this
      ensures Valid() && c in s.calls && s.calls[c].name == name
      ensures result == s.calls[c].phase && result.Final()
      ensures name != "" && result.Done? ==> result.id == name
    {
      Wait(c, others(0));
      Do(Open(c, name, repo));
      if s.calls[c].phase.Failed? {
        return s.calls[c].phase;
      }
      var named := name != "";
      var maxRetries := if named then 1 else MAX_TRIES;
      for i := 0 to maxRetries
        invariant Valid() && c in s.calls && s.calls[c].name == name
        invariant !named ==> |s.calls[c].refused| == i
        invariant i < maxRetries ==> s.calls[c].phase == if named then Proposing(name) else Ready
        invariant i == maxRetries ==> s.calls[c].phase.Failed?
      {
        Try(c, named, others(3 * i + 1), ok(3 * i + 1), others(3 * i + 2), ok(3 * i + 2));
        if s.calls[c].phase.Owning? {
          result := Finish(c, others, ok);
          return;
        }
        if s.calls[c].phase == Failed(IOError) {
          return s.calls[c].phase;
        }
      }
      result := s.calls[c].phase;
    }

    method Finish(c: nat, others: nat -> seq<Action>, ok: nat -> bool) returns (result: Phase)
      requires Valid() && c in s.calls && s.calls[c].phase.Owning?
      requires forall i :: Without(others(i), c)
      modifies this
      ensures Valid() && c in s.calls && s.calls[c] == old(s.calls)[c].(phase := result)
      ensures result.Done? || result.Abandoned?
      ensures result.id == old(s.calls)[c].phase.id
    {
      Wait(c, others(1000));
      Do(Describe(c, ok(1000)));
      if s.calls[c].phase.Abandoned? {
        return s.calls[c].phase;
      }
      Wait(c, others(1001));
      Do(LogCreated(c, ok(1001)));
      result := s.calls[c].phase;
    }
  }
}
