/**
 * Any number of writers appending to one attempt's log. An append reads the tail, then creates a file whose
 * name holds the second, the number and the type, and starts over when that name is taken.
 */
module LogRace {
  import opened Text
  import opened Events
  import opened Audit

  /** Name collisions after which an append gives up. */
  const MAX_TRIES := 8

  /** `seen` is the number of files that were there when the tail was read. */
  datatype Phase = Reading | Holding(event: Event, seen: nat) | Done(event: Event) | GaveUp | IOError

  /** `since` is the number of files when the append began, `refused` the numbers whose names it lost. */
  datatype Writer = Writer(draft: Event, phase: Phase, since: nat, refused: seq<int>)

  /** The files in the order in which they were created. */
  datatype State = State(files: seq<Event>, writers: map<nat, Writer>)

  datatype Action =
    | Begin(writer: nat, draft: Event)
    | Read(writer: nat, tail: nat, ok: bool)
    | Create(writer: nat, ok: bool)

  /** What a file name is made of. */
  function Name(e: Event): (int, int, string)
  {
    (e.ts / SECOND, e.num, e.kind)
  }

  predicate Taken(files: seq<Event>, e: Event)
  {
    exists i :: 0 <= i < |files| && Name(files[i]) == Name(e)
  }

  /** Sorted by number, this file can come last. */
  predicate IsTail(files: seq<Event>, t: nat)
  {
    t < |files| && forall i :: 0 <= i < |files| ==> files[i].num <= files[t].num
  }

  /** The event made of a draft on this tail; an empty log has none. */
  function Linked(h: Digest, tail: seq<Event>, draft: Event): Event
    requires |tail| <= 1
  {
    Stamped(h, tail, draft)
  }

  function Put(s: State, w: nat, writer: Writer): State
  {
    s.(writers := s.writers[w := writer])
  }

  /** The writer after losing a name. */
  function Refused(writer: Writer, e: Event): Writer
  {
    var refused := writer.refused + [e.num];
    writer.(refused := refused, phase := if |refused| >= MAX_TRIES then GaveUp else Reading)
  }

  function Next(h: Digest, s: State, a: Action): State
  {
    var w := a.writer;
    if a.Begin? then if w in s.writers then s else Put(s, w, Writer(a.draft, Reading, |s.files|, []))
    else if w !in s.writers then s
    else
      var writer := s.writers[w];
      match a
      case Read(_, tail, ok) =>
        if !writer.phase.Reading? then s
        else if !ok then Put(s, w, writer.(phase := IOError))
        else if s.files == [] then Put(s, w, writer.(phase := Holding(Linked(h, [], writer.draft), |s.files|)))
        else if !IsTail(s.files, tail) then s
        else Put(s, w, writer.(phase := Holding(Linked(h, [s.files[tail]], writer.draft), |s.files|)))
      case Create(_, ok) =>
        if !writer.phase.Holding? then s
        else if Taken(s.files, writer.phase.event) then Put(s, w, Refused(writer, writer.phase.event))
        else if !ok then Put(s, w, writer.(phase := IOError))
        else Put(s, w, writer.(phase := Done(writer.phase.event))).(files := s.files + [writer.phase.event])
  }

  function Run(h: Digest, s: State, acts: seq<Action>): State
  {
    if acts == [] then s else Next(h, Run(h, s, acts[..|acts| - 1]), acts[|acts| - 1])
  }

  function Start(log: seq<Event>): State
  {
    State(log, map[])
  }

  // ----- Every file hangs off an earlier one -----

  /** The event is the first of a log, or follows one of the first n files; its hash is its own. */
  ghost predicate Follows(h: Digest, files: seq<Event>, n: nat, e: Event)
    requires n <= |files|
  {
    && e.hash == ComputeHash(h, e)
    && ((e.num == 1 && e.prev == "")
        || exists p :: 0 <= p < n && files[p].num + 1 == e.num && files[p].num >= 1 && e.prev == files[p].hash)
  }

  ghost predicate Rooted(h: Digest, files: seq<Event>)
  {
    forall k :: 0 <= k < |files| ==> Follows(h, files, k, files[k])
  }

  ghost predicate NamesDiffer(files: seq<Event>)
  {
    forall i, j :: 0 <= i < j < |files| ==> Name(files[i]) != Name(files[j])
  }

  ghost predicate Consistent(h: Digest, s: State)
  {
    && Rooted(h, s.files) && NamesDiffer(s.files)
    && forall w :: w in s.writers && s.writers[w].phase.Holding? ==>
         Follows(h, s.files, |s.files|, s.writers[w].phase.event)
  }

  lemma FollowsMore(h: Digest, files: seq<Event>, more: seq<Event>, n: nat, e: Event)
    requires files <= more && n <= |files| && Follows(h, files, n, e)
    ensures Follows(h, more, n, e) && Follows(h, more, |more|, e)
  {
    if !(e.num == 1 && e.prev == "") {
      var p :| 0 <= p < n && files[p].num + 1 == e.num && files[p].num >= 1 && e.prev == files[p].hash;
      assert more[p] == files[p];
    }
  }

  lemma LinkedFollows(h: Digest, files: seq<Event>, t: nat, draft: Event)
    requires Rooted(h, files) && (files == [] || t < |files|)
    ensures Follows(h, files, |files|, Linked(h, if files == [] then [] else [files[t]], draft))
  {
    var e := Linked(h, if files == [] then [] else [files[t]], draft);
    assert Canon(e) == Canon(e.(hash := draft.hash));
    if files != [] { assert Follows(h, files, t, files[t]); }
  }

  lemma CreatedConsistent(h: Digest, files: seq<Event>, e: Event)
    requires Rooted(h, files) && NamesDiffer(files) && Follows(h, files, |files|, e) && !Taken(files, e)
    ensures Rooted(h, files + [e]) && NamesDiffer(files + [e])
  {
    forall k | 0 <= k < |files| + 1 ensures Follows(h, files + [e], k, (files + [e])[k]) {
      if k < |files| {
        FollowsMore(h, files, files + [e], k, files[k]);
      } else {
        FollowsMore(h, files, files + [e], |files|, e);
      }
    }
  }

  /** Nothing but one writer changes, and it holds an event that follows a file. */
  lemma PutConsistent(h: Digest, s: State, w: nat, writer: Writer)
    requires Consistent(h, s)
    requires writer.phase.Holding? ==> Follows(h, s.files, |s.files|, writer.phase.event)
    ensures Consistent(h, Put(s, w, writer))
  {
  }

  lemma CreateConsistent(h: Digest, s: State, w: nat, e: Event, writer: Writer)
    requires Consistent(h, s) && Follows(h, s.files, |s.files|, e) && !Taken(s.files, e) && writer.phase == Done(e)
    ensures Consistent(h, State(s.files + [e], s.writers[w := writer]))
  {
    var files, writers := s.files + [e], s.writers[w := writer];
    CreatedConsistent(h, s.files, e);
    forall v | v in writers && writers[v].phase.Holding? ensures Follows(h, files, |files|, writers[v].phase.event) {
      FollowsMore(h, s.files, files, |s.files|, writers[v].phase.event);
    }
  }

  lemma StepConsistent(h: Digest, s: State, a: Action)
    requires Consistent(h, s)
    ensures Consistent(h, Next(h, s, a)) && s.files <= Next(h, s, a).files
  {
    var t, w := Next(h, s, a), a.writer;
    if t != s {
      if t.files != s.files {
        CreateConsistent(h, s, w, s.writers[w].phase.event, t.writers[w]);
      } else {
        if a.Read? && (s.files == [] || IsTail(s.files, a.tail)) { LinkedFollows(h, s.files, a.tail, s.writers[w].draft); }
        PutConsistent(h, s, w, t.writers[w]);
      }
    }
  }

  lemma StartConsistent(h: Digest, log: seq<Event>)
    requires Intact(h, log) && Audit.Numbered(log)
    ensures Consistent(h, Start(log))
  {
    forall k | 0 <= k < |log| ensures Follows(h, log, k, log[k]) {
      assert Fault(h, log, k) == None;
      if k > 0 { assert log[..k][k - 1] == log[k - 1] && log[k - 1].num + 1 == log[k].num; }
    }
  }

  lemma {:induction false} RunConsistent(h: Digest, log: seq<Event>, acts: seq<Action>)
    requires Intact(h, log) && Audit.Numbered(log)
    ensures Consistent(h, Run(h, Start(log), acts)) && log <= Run(h, Start(log), acts).files
  {
    if acts == [] {
      StartConsistent(h, log);
    } else {
      RunConsistent(h, log, acts[..|acts| - 1]);
      StepConsistent(h, Run(h, Start(log), acts[..|acts| - 1]), acts[|acts| - 1]);
    }
  }

  // ----- When the log read back verifies -----

  /** Every event of the listing has its parent in the listing, or is a first one. */
  lemma ParentListed(h: Digest, files: seq<Event>, order: seq<Event>, i: nat)
    requires Rooted(h, files) && Listing(files, order) && i < |order|
    ensures order[i].hash == ComputeHash(h, order[i]) && order[i].num >= 1
    ensures (order[i].num == 1 && order[i].prev == "")
         || exists p :: 0 <= p < |order| && order[p].num + 1 == order[i].num && order[i].prev == order[p].hash
  {
    ListedMembers(files, order);
    assert order[i] in files;
    var k :| 0 <= k < |files| && files[k] == order[i];
    assert Follows(h, files, k, files[k]);
    if !(order[i].num == 1 && order[i].prev == "") {
      var p :| 0 <= p < k && files[p].num + 1 == files[k].num && files[p].num >= 1 && files[k].prev == files[p].hash;
      assert files[p] in order;
      var q :| 0 <= q < |order| && order[q] == files[p];
    }
  }

  lemma {:induction false} NumbersRun(h: Digest, files: seq<Event>, order: seq<Event>, i: nat)
    requires Rooted(h, files) && Listing(files, order) && i < |order|
    requires forall i, j :: 0 <= i < j < |order| ==> order[i].num < order[j].num
    ensures order[i].num == i + 1 && order[i].prev == (if i == 0 then "" else order[i - 1].hash)
  {
    ParentListed(h, files, order, i);
    if i > 0 { NumbersRun(h, files, order, i - 1); }
  }

  lemma WithoutTwinsIntact(h: Digest, files: seq<Event>, order: seq<Event>)
    requires Rooted(h, files) && Listing(files, order) && !Twins(files)
    ensures Intact(h, order) && Audit.Numbered(order)
  {
    DistinctListing(files, order);
    forall i | 0 <= i < |order| ensures Fault(h, order, i) == None && order[i].num == i + 1 {
      NumbersRun(h, files, order, i);
      ParentListed(h, files, order, i);
      assert i > 0 ==> order[..i][i - 1] == order[i - 1];
    }
  }

  lemma TwinsListed(files: seq<Event>, order: seq<Event>) returns (i: nat)
    requires Listing(files, order) && Twins(files)
    ensures i + 1 < |order| && order[i].num == order[i + 1].num
  {
    if forall i, j :: 0 <= i < j < |order| ==> order[i].num < order[j].num { StrictHasNoTwins(files, order); }
    var a, b :| 0 <= a < b < |order| && order[a].num == order[b].num;
    i := a;
  }

  lemma HashTellsNumber(h: Digest, a: Event, b: Event)
    requires Injective(h) && a.hash == ComputeHash(h, a) && b.hash == ComputeHash(h, b)
    ensures a.hash != "" && (a.hash == b.hash ==> a.num == b.num)
  {
    assert Canon(a).num == a.num && Canon(b).num == b.num;
  }

  lemma TwinDoesNotLink(h: Digest, files: seq<Event>, order: seq<Event>, i: nat)
    requires Injective(h) && Rooted(h, files) && Listing(files, order)
    requires i + 1 < |order| && order[i].num == order[i + 1].num
    ensures order[i + 1].prev != order[i].hash
  {
    var a, b := order[i], order[i + 1];
    ParentListed(h, files, order, i);
    ParentListed(h, files, order, i + 1);
    HashTellsNumber(h, a, a);
    if !(b.num == 1 && b.prev == "") {
      var p :| 0 <= p < |order| && order[p].num + 1 == b.num && b.prev == order[p].hash;
      ParentListed(h, files, order, p);
      HashTellsNumber(h, a, order[p]);
    }
  }

  lemma TwinsBreak(h: Digest, files: seq<Event>, order: seq<Event>)
    requires Injective(h) && Rooted(h, files) && Listing(files, order) && Twins(files)
    ensures !Intact(h, order)
  {
    var i := TwinsListed(files, order);
    TwinDoesNotLink(h, files, order, i);
    assert order[..i + 1][i] == order[i];
    assert Fault(h, order, i + 1).Some?;
  }

  lemma ListedIntactExactly(h: Digest, files: seq<Event>, order: seq<Event>)
    requires Injective(h) && Rooted(h, files) && Listing(files, order)
    ensures Intact(h, order) <==> !Twins(files)
  {
    if Twins(files) { TwinsBreak(h, files, order); } else { WithoutTwinsIntact(h, files, order); }
  }

  /** Files of one number have different names: they differ in second or type. */
  lemma TwinsDiffer(h: Digest, log: seq<Event>, acts: seq<Action>, i: nat, j: nat)
    requires Intact(h, log) && Audit.Numbered(log)
    requires var files := Run(h, Start(log), acts).files; i < j < |files| && files[i].num == files[j].num
    ensures var files := Run(h, Start(log), acts).files;
      files[i].ts / SECOND != files[j].ts / SECOND || files[i].kind != files[j].kind
  {
    RunConsistent(h, log, acts);
  }

  // ----- Whose files share a number -----

  /** Two writers filed events after reading tails of one number. */
  ghost predicate SharedTail(s: State)
  {
    exists v, w :: v in s.writers && w in s.writers && v != w && s.writers[v].phase.Done? && s.writers[w].phase.Done?
      && s.writers[v].phase.event.num == s.writers[w].phase.event.num
  }

  predicate Author(writers: map<nat, Writer>, w: nat, e: Event)
  {
    w in writers && writers[w].phase == Done(e)
  }

  ghost predicate Authored(writers: map<nat, Writer>, e: Event)
  {
    exists w :: Author(writers, w, e)
  }

  predicate OtherName(writers: map<nat, Writer>, v: nat, w: nat)
    requires v in writers && w in writers
  {
    writers[v].phase.Done? && writers[w].phase.Done? ==> Name(writers[v].phase.event) != Name(writers[w].phase.event)
  }

  /** The event is among the files past the first n. */
  predicate Past(n: nat, files: seq<Event>, e: Event)
  {
    exists k :: n <= k < |files| && files[k] == e
  }

  ghost predicate AuthorsDiffer(writers: map<nat, Writer>)
  {
    forall v, w :: v in writers && w in writers && v != w ==> OtherName(writers, v, w)
  }

  /** The files past the log are those of the writers that are done, one each. */
  ghost predicate Owned(log: seq<Event>, s: State)
  {
    && (forall k :: |log| <= k < |s.files| ==> s.files[k].num > |log|)
    && (forall w :: w in s.writers && s.writers[w].phase.Holding? ==> s.writers[w].phase.event.num > |log|)
    && (forall k :: |log| <= k < |s.files| ==> Authored(s.writers, s.files[k]))
    && (forall w, e :: Author(s.writers, w, e) ==> Past(|log|, s.files, e))
    && AuthorsDiffer(s.writers)
  }

  lemma StillAuthored(writers: map<nat, Writer>, w: nat, writer: Writer, e: Event)
    requires Authored(writers, e) && (w in writers ==> !writers[w].phase.Done?)
    ensures Authored(writers[w := writer], e)
  {
    var v :| Author(writers, v, e);
    assert Author(writers[w := writer], v, e);
  }

  lemma PastMore(n: nat, files: seq<Event>, e: Event, f: Event)
    requires n <= |files|
    ensures Past(n, files + [e], f) <==> Past(n, files, f) || f == e
  {
    assert (files + [e])[|files|] == e;
    if Past(n, files, f) {
      var k :| n <= k < |files| && files[k] == f;
      assert (files + [e])[k] == f;
    }
  }

  lemma NewAuthorDiffers(s: State, from: nat, w: nat, e: Event, writer: Writer)
    requires AuthorsDiffer(s.writers) && !Taken(s.files, e) && writer.phase == Done(e)
    requires forall v, f :: Author(s.writers, v, f) ==> Past(from, s.files, f)
    ensures AuthorsDiffer(s.writers[w := writer])
  {
    var writers := s.writers[w := writer];
    forall v | v in s.writers && v != w ensures OtherName(writers, v, w) && OtherName(writers, w, v) {
      if s.writers[v].phase.Done? {
        assert Author(s.writers, v, s.writers[v].phase.event);
        assert Past(from, s.files, s.writers[v].phase.event);
      }
    }
    forall u, v | u in writers && v in writers && u != v ensures OtherName(writers, u, v) {
      if u != w && v != w { assert OtherName(s.writers, u, v); }
    }
  }

  lemma CreateOwned(log: seq<Event>, s: State, w: nat, e: Event, writer: Writer)
    requires Owned(log, s) && |log| <= |s.files| && w in s.writers && s.writers[w].phase.Holding? && s.writers[w].phase.event == e
    requires !Taken(s.files, e) && writer.phase == Done(e)
    ensures Owned(log, State(s.files + [e], s.writers[w := writer]))
  {
    var writers, files := s.writers[w := writer], s.files + [e];
    NewAuthorDiffers(s, |log|, w, e, writer);
    assert Author(writers, w, e);
    forall k | |log| <= k < |files| ensures Authored(writers, files[k]) {
      if k < |s.files| { StillAuthored(s.writers, w, writer, s.files[k]); }
    }
    forall v, f | Author(writers, v, f) ensures Past(|log|, files, f) {
      assert v != w ==> Author(s.writers, v, f);
      PastMore(|log|, s.files, e, f);
    }
  }

  lemma SameFilesOwned(log: seq<Event>, s: State, w: nat, writer: Writer)
    requires Owned(log, s) && (w in s.writers ==> !s.writers[w].phase.Done?) && !writer.phase.Done?
    requires writer.phase.Holding? ==> writer.phase.event.num > |log|
    ensures Owned(log, Put(s, w, writer))
  {
    var writers := s.writers[w := writer];
    forall k | |log| <= k < |s.files| ensures Authored(writers, s.files[k]) {
      StillAuthored(s.writers, w, writer, s.files[k]);
    }
    forall v, f ensures Author(writers, v, f) ==> Author(s.writers, v, f) {}
    forall u, v | u in writers && v in writers && u != v ensures OtherName(writers, u, v) {
      if u != w && v != w { assert OtherName(s.writers, u, v); }
    }
  }

  lemma LinkedIsNew(h: Digest, log: seq<Event>, files: seq<Event>, t: nat, draft: Event)
    requires Audit.Numbered(log) && log <= files && (files == [] || IsTail(files, t))
    requires forall k :: |log| <= k < |files| ==> files[k].num > |log|
    ensures Linked(h, if files == [] then [] else [files[t]], draft).num > |log|
  {
    if log != [] { assert files[|log| - 1] == log[|log| - 1]; }
  }

  lemma StepOwned(h: Digest, log: seq<Event>, s: State, a: Action)
    requires Audit.Numbered(log) && log <= s.files && Owned(log, s)
    ensures Owned(log, Next(h, s, a))
  {
    var t, w := Next(h, s, a), a.writer;
    if t != s {
      if t.files != s.files {
        CreateOwned(log, s, w, s.writers[w].phase.event, t.writers[w]);
      } else {
        if a.Read? && (s.files == [] || IsTail(s.files, a.tail)) { LinkedIsNew(h, log, s.files, a.tail, s.writers[w].draft); }
        SameFilesOwned(log, s, w, t.writers[w]);
      }
    }
  }

  lemma {:induction false} RunOwned(h: Digest, log: seq<Event>, acts: seq<Action>)
    requires Intact(h, log) && Audit.Numbered(log)
    ensures Owned(log, Run(h, Start(log), acts))
  {
    if acts != [] {
      var init := acts[..|acts| - 1];
      RunOwned(h, log, init);
      RunConsistent(h, log, init);
      StepOwned(h, log, Run(h, Start(log), init), acts[|acts| - 1]);
    }
  }

  lemma TwinsHaveWriters(log: seq<Event>, s: State, i: nat, j: nat)
    requires NamesDiffer(s.files) && Owned(log, s)
    requires |log| <= i < j < |s.files| && s.files[i].num == s.files[j].num
    ensures SharedTail(s)
  {
    assert Authored(s.writers, s.files[i]) && Authored(s.writers, s.files[j]);
    var v :| Author(s.writers, v, s.files[i]);
    var w :| Author(s.writers, w, s.files[j]);
    assert Name(s.files[i]) != Name(s.files[j]);
  }

  lemma TwinsAreNew(log: seq<Event>, s: State, i: nat, j: nat)
    requires Audit.Numbered(log) && log <= s.files && Owned(log, s)
    requires i < j < |s.files| && s.files[i].num == s.files[j].num
    ensures i >= |log|
  {
    forall k | 0 <= k < |log| ensures s.files[k].num == k + 1 { assert s.files[k] == log[k]; }
  }

  lemma PastTwins(n: nat, files: seq<Event>, e: Event, f: Event)
    requires Past(n, files, e) && Past(n, files, f) && Name(e) != Name(f) && e.num == f.num
    ensures Twins(files)
  {
    var i :| n <= i < |files| && files[i] == e;
    var j :| n <= j < |files| && files[j] == f;
    assert i < j || j < i;
  }

  lemma WritersMakeTwins(log: seq<Event>, s: State, v: nat, w: nat)
    requires Owned(log, s) && v in s.writers && w in s.writers && v != w
    requires s.writers[v].phase.Done? && s.writers[w].phase.Done?
    requires s.writers[v].phase.event.num == s.writers[w].phase.event.num
    ensures Twins(s.files)
  {
    var e, f := s.writers[v].phase.event, s.writers[w].phase.event;
    assert Author(s.writers, v, e) && Author(s.writers, w, f) && OtherName(s.writers, v, w);
    PastTwins(|log|, s.files, e, f);
  }

  lemma TwinsInState(log: seq<Event>, s: State)
    requires Audit.Numbered(log) && log <= s.files && NamesDiffer(s.files) && Owned(log, s)
    ensures Twins(s.files) <==> SharedTail(s)
  {
    if Twins(s.files) {
      var i, j :| 0 <= i < j < |s.files| && s.files[i].num == s.files[j].num;
      TwinsAreNew(log, s, i, j);
      TwinsHaveWriters(log, s, i, j);
    }
    if SharedTail(s) {
      var v, w :| v in s.writers && w in s.writers && v != w && s.writers[v].phase.Done? && s.writers[w].phase.Done?
        && s.writers[v].phase.event.num == s.writers[w].phase.event.num;
      WritersMakeTwins(log, s, v, w);
    }
  }

  lemma TwinsExactly(h: Digest, log: seq<Event>, acts: seq<Action>)
    requires Intact(h, log) && Audit.Numbered(log)
    ensures Twins(Run(h, Start(log), acts).files) <==> SharedTail(Run(h, Start(log), acts))
  {
    RunConsistent(h, log, acts);
    RunOwned(h, log, acts);
    TwinsInState(log, Run(h, Start(log), acts));
  }

  // ----- Which schedules make files share a number -----

  /** The access creates a file although one has come to be since its writer read the tail. */
  predicate Stale(s: State, a: Action)
  {
    && a.Create? && a.ok && a.writer in s.writers && s.writers[a.writer].phase.Holding?
    && !Taken(s.files, s.writers[a.writer].phase.event)
    && s.writers[a.writer].phase.seen < |s.files|
  }

  ghost predicate SomeStale(h: Digest, log: seq<Event>, acts: seq<Action>)
  {
    exists k :: 0 <= k < |acts| && Stale(Run(h, Start(log), acts[..k]), acts[k])
  }

  /** The event has the next number after the first n files. */
  ghost predicate NextAfter(files: seq<Event>, n: nat, e: Event)
  {
    && n <= |files| && (forall i :: 0 <= i < n ==> files[i].num < e.num)
    && (e.num == 1 || exists i :: 0 <= i < n && files[i].num == e.num - 1)
  }

  ghost predicate HoldsNext(s: State)
  {
    forall w :: w in s.writers && s.writers[w].phase.Holding? ==>
      NextAfter(s.files, s.writers[w].phase.seen, s.writers[w].phase.event)
  }

  lemma NextAfterMore(files: seq<Event>, more: seq<Event>, n: nat, e: Event)
    requires NextAfter(files, n, e) && files <= more
    ensures NextAfter(more, n, e)
  {
    if e.num != 1 {
      var i :| 0 <= i < n && files[i].num == e.num - 1;
      assert more[i] == files[i];
    }
  }

  lemma LinkedIsNext(h: Digest, files: seq<Event>, t: nat, draft: Event)
    requires files == [] || IsTail(files, t)
    ensures NextAfter(files, |files|, Linked(h, if files == [] then [] else [files[t]], draft))
  {
  }

  lemma HoldsNextStep(h: Digest, s: State, a: Action)
    requires HoldsNext(s) && s.files <= Next(h, s, a).files
    ensures HoldsNext(Next(h, s, a))
  {
    var t, w := Next(h, s, a), a.writer;
    forall v | v in t.writers && t.writers[v].phase.Holding?
      ensures NextAfter(t.files, t.writers[v].phase.seen, t.writers[v].phase.event)
    {
      if v in s.writers && t.writers[v].phase == s.writers[v].phase {
        NextAfterMore(s.files, t.files, s.writers[v].phase.seen, s.writers[v].phase.event);
      } else {
        LinkedIsNext(h, s.files, a.tail, s.writers[w].draft);
      }
    }
  }

  lemma {:induction false} HoldsNextAlways(h: Digest, log: seq<Event>, acts: seq<Action>)
    requires Intact(h, log) && Audit.Numbered(log)
    ensures HoldsNext(Run(h, Start(log), acts))
  {
    if acts != [] {
      var init := acts[..|acts| - 1];
      HoldsNextAlways(h, log, init);
      RunConsistent(h, log, init);
      StepConsistent(h, Run(h, Start(log), init), acts[|acts| - 1]);
      HoldsNextStep(h, Run(h, Start(log), init), acts[|acts| - 1]);
    }
  }

  /** Below every file's number, every number is taken by an earlier file. */
  lemma {:induction false} Contiguous(h: Digest, files: seq<Event>, i: nat, n: int) returns (j: nat)
    requires Rooted(h, files) && i < |files| && 1 <= n <= files[i].num
    ensures j <= i && files[j].num == n
    decreases i
  {
    if n == files[i].num {
      j := i;
    } else {
      assert Follows(h, files, i, files[i]);
      var p :| 0 <= p < i && files[p].num + 1 == files[i].num;
      j := Contiguous(h, files, p, n);
    }
  }

  /** A late event's number is taken already, or was taken since its tail was read. */
  lemma LateIsTwin(h: Digest, files: seq<Event>, n: nat, e: Event)
    requires Rooted(h, files) && NextAfter(files, n, e) && n < |files| && e.num >= 1
    ensures Twins(files + [e])
  {
    var more, f := files + [e], files[n];
    assert Follows(h, files, n, f);
    assert forall i :: 0 <= i < |files| ==> more[i] == files[i];
    assert 1 <= f.num <= e.num by {
      if f.num != 1 {
        var p :| 0 <= p < n && files[p].num + 1 == f.num && files[p].num >= 1;
      }
    }
    if f.num == e.num {
      assert more[n].num == more[|files|].num;
    } else {
      var i :| 0 <= i < n && files[i].num == e.num - 1;
      var j := Contiguous(h, files, i, f.num);
      assert more[j].num == more[n].num;
    }
  }

  lemma StaleMakesTwins(h: Digest, s: State, a: Action)
    requires Consistent(h, s) && HoldsNext(s) && Stale(s, a)
    ensures Twins(Next(h, s, a).files)
  {
    var phase := s.writers[a.writer].phase;
    assert Follows(h, s.files, |s.files|, phase.event);
    LateIsTwin(h, s.files, phase.seen, phase.event);
  }

  ghost predicate StrictlyNumbered(files: seq<Event>)
  {
    forall i, j :: 0 <= i < j < |files| ==> files[i].num < files[j].num
  }

  lemma TimelyStaysStrict(h: Digest, s: State, a: Action)
    requires HoldsNext(s) && StrictlyNumbered(s.files) && !Stale(s, a)
    ensures StrictlyNumbered(Next(h, s, a).files)
  {
    var t := Next(h, s, a);
    if t.files != s.files {
      var phase := s.writers[a.writer].phase;
      assert NextAfter(s.files, phase.seen, phase.event) && t.files == s.files + [phase.event];
    }
  }

  lemma TwinsLast(files: seq<Event>, more: seq<Event>)
    requires Twins(files) && files <= more
    ensures Twins(more)
  {
    var i, j :| 0 <= i < j < |files| && files[i].num == files[j].num;
    assert more[i] == files[i] && more[j] == files[j];
  }

  lemma {:induction false} StaleOrStrict(h: Digest, log: seq<Event>, acts: seq<Action>)
    requires Intact(h, log) && Audit.Numbered(log)
    ensures if SomeStale(h, log, acts) then Twins(Run(h, Start(log), acts).files)
            else StrictlyNumbered(Run(h, Start(log), acts).files)
  {
    if acts != [] {
      var n := |acts| - 1;
      var init, last := acts[..n], acts[n];
      var s := Run(h, Start(log), init);
      StaleOrStrict(h, log, init);
      RunConsistent(h, log, init);
      HoldsNextAlways(h, log, init);
      StepConsistent(h, s, last);
      assert forall k :: 0 <= k < n ==> init[..k] == acts[..k] && init[k] == acts[k];
      if Stale(s, last) {
        StaleMakesTwins(h, s, last);
      } else if SomeStale(h, log, init) {
        var k :| 0 <= k < n && Stale(Run(h, Start(log), init[..k]), init[k]);
        assert Stale(Run(h, Start(log), acts[..k]), acts[k]);
        TwinsLast(s.files, Next(h, s, last).files);
      } else {
        TimelyStaysStrict(h, s, last);
        NoneStale(h, log, acts);
      }
    }
  }

  lemma NoneStale(h: Digest, log: seq<Event>, acts: seq<Action>)
    requires acts != [] && !SomeStale(h, log, acts[..|acts| - 1])
    requires !Stale(Run(h, Start(log), acts[..|acts| - 1]), acts[|acts| - 1])
    ensures !SomeStale(h, log, acts)
  {
    var init := acts[..|acts| - 1];
    forall k | 0 <= k < |acts| ensures !Stale(Run(h, Start(log), acts[..k]), acts[k]) {
      if k < |init| { assert init[..k] == acts[..k] && init[k] == acts[k]; }
    }
  }

  /** Two files come to carry one number if and only if some file was created on a tail read too early. */
  lemma TwinsByStale(h: Digest, log: seq<Event>, acts: seq<Action>)
    requires Intact(h, log) && Audit.Numbered(log)
    ensures Twins(Run(h, Start(log), acts).files) <==> SomeStale(h, log, acts)
  {
    StaleOrStrict(h, log, acts);
  }

  // ----- Reading the directory -----

  lemma StoredFollows(h: Digest, files: seq<Event>, k: nat)
    requires k < |files| && Follows(h, files, k, files[k])
    ensures Follows(h, Stored(files), k, Stored(files)[k])
  {
    var e := files[k];
    NormalHashesAlike(e);
    if !(e.num == 1 && e.prev == "") {
      var p :| 0 <= p < k && files[p].num + 1 == e.num && files[p].num >= 1 && e.prev == files[p].hash;
      assert Stored(files)[p].num == files[p].num && Stored(files)[p].hash == files[p].hash;
    }
  }

  lemma StoredRooted(h: Digest, files: seq<Event>)
    requires Rooted(h, files)
    ensures Rooted(h, Stored(files)) && (Twins(Stored(files)) <==> Twins(files))
  {
    forall k | 0 <= k < |files| ensures Follows(h, Stored(files), k, Stored(files)[k]) {
      StoredFollows(h, files, k);
    }
    assert forall k :: 0 <= k < |files| ==> Stored(files)[k].num == files[k].num;
    if Twins(files) {
      var i, j :| 0 <= i < j < |files| && files[i].num == files[j].num;
      assert Stored(files)[i].num == Stored(files)[j].num;
    }
  }

  /**
   * Over every run of any number of writers, with a collision-free digest: the log read back from its directory
   * verifies if and only if no writer created its file after another had come to be since it read the tail, and
   * that is so if and only if no two writers filed events after reading tails of one number.
   */
  lemma ReadBackIntactExactly(h: Digest, y: Yaml, log: seq<Event>, acts: seq<Action>, data: seq<string>, order: seq<Event>)
    requires Injective(h) && Intact(h, log) && Audit.Numbered(log)
    requires var files := Run(h, Start(log), acts).files;
      multiset(data) == multiset(Files(y, files)) && forall i :: 0 <= i < |files| ==> Encodes(y, files[i])
    ensures ReadAll(y, data).Some?
    ensures Listing(ReadAll(y, data).value, order) ==> (Intact(h, order) <==> !SomeStale(h, log, acts))
    ensures SomeStale(h, log, acts) <==> SharedTail(Run(h, Start(log), acts))
  {
    var files := Run(h, Start(log), acts).files;
    RunConsistent(h, log, acts);
    ReadAnyOrder(y, files, data);
    StoredRooted(h, files);
    TwinsExactly(h, log, acts);
    TwinsByStale(h, log, acts);
    if Listing(ReadAll(y, data).value, order) { ListedIntactExactly(h, Stored(files), order); }
  }

  lemma RunStep(h: Digest, s: State, acts: seq<Action>, a: Action)
    ensures Run(h, s, acts + [a]) == Next(h, Run(h, s, acts), a)
  {
    assert (acts + [a])[..|acts|] == acts;
  }

  function LastPlace(log: seq<Event>): nat
  {
    if log == [] then 0 else |log| - 1
  }

  lemma StampedIsLinked(h: Digest, log: seq<Event>, draft: Event)
    requires Audit.Numbered(log)
    ensures Linked(h, if log == [] then [] else [log[LastPlace(log)]], draft) == Stamped(h, log, draft)
    ensures log != [] ==> IsTail(log, LastPlace(log))
  {
  }

  /** One writer after another reads the log. */
  lemma OneReads(h: Digest, s: State, log: seq<Event>, w: nat, draft: Event)
    requires Audit.Numbered(log) && s.files == log && w !in s.writers
    ensures var t := Next(h, Next(h, s, Begin(w, draft)), Read(w, LastPlace(log), true));
      t == s.(writers := s.writers[w := Writer(draft, Holding(Stamped(h, log, draft), |log|), |log|, [])])
  {
    StampedIsLinked(h, log, draft);
    var s1 := Next(h, s, Begin(w, draft));
    assert s1.writers[w := Writer(draft, Holding(Stamped(h, log, draft), |log|), |log|, [])]
        == s.writers[w := Writer(draft, Holding(Stamped(h, log, draft), |log|), |log|, [])];
  }

  lemma NewNameIsFree(h: Digest, log: seq<Event>, draft: Event)
    requires Audit.Numbered(log)
    ensures !Taken(log, Stamped(h, log, draft))
  {
  }

  /** A writer with nobody else about appends as the sequential operation does. */
  lemma LoneAppend(h: Digest, log: seq<Event>, draft: Event)
    requires Audit.Numbered(log)
    ensures var acts := [Begin(0, draft), Read(0, LastPlace(log), true), Create(0, true)];
      Run(h, Start(log), acts).files == Append(h, log, draft)
  {
    var s := Start(log);
    OneReads(h, s, log, 0, draft);
    NewNameIsFree(h, log, draft);
    var acts := [Begin(0, draft)] + [Read(0, LastPlace(log), true)] + [Create(0, true)];
    assert [] + [Begin(0, draft)] == [Begin(0, draft)];
    RunStep(h, s, [], Begin(0, draft));
    RunStep(h, s, [Begin(0, draft)], Read(0, LastPlace(log), true));
    RunStep(h, s, [Begin(0, draft)] + [Read(0, LastPlace(log), true)], Create(0, true));
    assert acts == [Begin(0, draft), Read(0, LastPlace(log), true), Create(0, true)];
  }

  /** Two writers that both read before either creates. */
  function Crossing(log: seq<Event>, a: Event, b: Event): seq<Action>
  {
    [Begin(0, a)] + [Read(0, LastPlace(log), true)] + [Begin(1, b)] + [Read(1, LastPlace(log), true)]
    + [Create(0, true)] + [Create(1, true)]
  }

  lemma BothHold(h: Digest, log: seq<Event>, a: Event, b: Event)
    requires Audit.Numbered(log)
    ensures var acts := [Begin(0, a)] + [Read(0, LastPlace(log), true)] + [Begin(1, b)] + [Read(1, LastPlace(log), true)];
      Run(h, Start(log), acts) == State(log, map[0 := Writer(a, Holding(Stamped(h, log, a), |log|), |log|, []),
                                                 1 := Writer(b, Holding(Stamped(h, log, b), |log|), |log|, [])])
  {
    var s, read0, read1 := Start(log), Read(0, LastPlace(log), true), Read(1, LastPlace(log), true);
    assert [] + [Begin(0, a)] == [Begin(0, a)];
    RunStep(h, s, [], Begin(0, a));
    RunStep(h, s, [Begin(0, a)], read0);
    OneReads(h, s, log, 0, a);
    RunStep(h, s, [Begin(0, a)] + [read0], Begin(1, b));
    RunStep(h, s, [Begin(0, a)] + [read0] + [Begin(1, b)], read1);
    OneReads(h, Run(h, s, [Begin(0, a)] + [read0]), log, 1, b);
  }

  /** Two writers on one tail: both files come to be, and the log no longer verifies, unless second and type agree. */
  lemma CrossingBreaks(h: Digest, log: seq<Event>, a: Event, b: Event)
    requires Injective(h) && Intact(h, log) && Audit.Numbered(log)
    ensures var files := Run(h, Start(log), Crossing(log, a, b)).files;
      && (Twins(files) <==> a.ts / SECOND != b.ts / SECOND || a.kind != b.kind)
      && (Twins(files) ==> files == log + [Stamped(h, log, a), Stamped(h, log, b)] && BreaksAt(h, files, |log| + 1)
                           && Fault(h, files, |log| + 1) == Some(PrevMismatch))
  {
    var s, x, y := Start(log), Stamped(h, log, a), Stamped(h, log, b);
    var held := [Begin(0, a)] + [Read(0, LastPlace(log), true)] + [Begin(1, b)] + [Read(1, LastPlace(log), true)];
    BothHold(h, log, a, b);
    RunStep(h, s, held, Create(0, true));
    RunStep(h, s, held + [Create(0, true)], Create(1, true));
    NewNameIsFree(h, log, a);
    NewNameIsFree(h, log, b);
    SecondName(log, x, y);
    AppendKeepsChain(h, log, a);
    TwinFault(h, log, a, b);
    assert log + [x] + [y] == log + [x, y];
    if Name(x) != Name(y) { assert (log + [x, y])[|log|].num == (log + [x, y])[|log| + 1].num; }
  }

  lemma SecondName(log: seq<Event>, x: Event, y: Event)
    requires !Taken(log, y)
    ensures Taken(log + [x], y) <==> Name(x) == Name(y)
  {
    if Name(x) == Name(y) { assert Name((log + [x])[|log|]) == Name(y); }
  }

  lemma NewHash(h: Digest, log: seq<Event>, draft: Event)
    requires Injective(h) && Intact(h, log) && Audit.Numbered(log)
    ensures Stamped(h, log, draft).hash != LastHash(log)
  {
    var x := Stamped(h, log, draft);
    assert Canon(x) == Canon(x.(hash := draft.hash));
    HashTellsNumber(h, x, x);
    if log != [] {
      assert Fault(h, log, |log| - 1) == None;
      HashTellsNumber(h, x, log[|log| - 1]);
    }
  }

  lemma TwinFault(h: Digest, log: seq<Event>, a: Event, b: Event)
    requires Injective(h) && Intact(h, log) && Audit.Numbered(log)
    ensures var files := log + [Stamped(h, log, a), Stamped(h, log, b)];
      BreaksAt(h, files, |log| + 1) && Fault(h, files, |log| + 1) == Some(PrevMismatch)
    ensures !Twins(log + [Stamped(h, log, a)])
  {
    var x, y := Stamped(h, log, a), Stamped(h, log, b);
    var one, files := log + [x], log + [x, y];
    AppendKeepsChain(h, log, a);
    forall j | 0 <= j <= |log| ensures Fault(h, files, j) == None {
      assert files[..j] == one[..j] && files[j] == one[j] && Fault(h, one, j) == None;
    }
    NewHash(h, log, a);
    assert LastHash(files[..|log| + 1]) == x.hash;
  }

  // ----- Writers that cannot miss each other -----

  /** From this log on, every file and every held event has this second and type, and a number past the log. */
  predicate Plain(log: seq<Event>, e: Event, second: int, kind: string)
  {
    Name(e) == (second, e.num, kind) && e.num > |log|
  }

  ghost predicate Uniform(log: seq<Event>, s: State, second: int, kind: string)
  {
    && log <= s.files
    && (forall i :: |log| <= i < |s.files| ==> Plain(log, s.files[i], second, kind))
    && forall w :: w in s.writers ==>
         && s.writers[w].draft.ts / SECOND == second && s.writers[w].draft.kind == kind
         && (s.writers[w].phase.Holding? ==> Plain(log, s.writers[w].phase.event, second, kind))
  }

  predicate Drafts(acts: seq<Action>, second: int, kind: string)
  {
    forall i :: 0 <= i < |acts| && acts[i].Begin? ==> acts[i].draft.ts / SECOND == second && acts[i].draft.kind == kind
  }

  lemma UniformCreate(log: seq<Event>, s: State, w: nat, e: Event, writer: Writer, second: int, kind: string)
    requires Uniform(log, s, second, kind) && w in s.writers && s.writers[w].phase.Holding? && s.writers[w].phase.event == e
    requires writer == s.writers[w].(phase := Done(e))
    ensures Uniform(log, State(s.files + [e], s.writers[w := writer]), second, kind)
  {
  }

  lemma UniformStep(h: Digest, log: seq<Event>, s: State, a: Action, second: int, kind: string)
    requires Audit.Numbered(log) && Uniform(log, s, second, kind)
    requires a.Begin? ==> a.draft.ts / SECOND == second && a.draft.kind == kind
    ensures Uniform(log, Next(h, s, a), second, kind)
  {
    var t, w := Next(h, s, a), a.writer;
    if t.files != s.files {
      UniformCreate(log, s, w, s.writers[w].phase.event, t.writers[w], second, kind);
    } else if a.Read? && w in s.writers && (s.files == [] || IsTail(s.files, a.tail)) {
      LinkedPlain(h, log, s.files, a.tail, s.writers[w].draft, second, kind);
    }
  }

  lemma LinkedPlain(h: Digest, log: seq<Event>, files: seq<Event>, t: nat, draft: Event, second: int, kind: string)
    requires Audit.Numbered(log) && log <= files && (files == [] || IsTail(files, t))
    requires forall i :: |log| <= i < |files| ==> Plain(log, files[i], second, kind)
    requires draft.ts / SECOND == second && draft.kind == kind
    ensures Plain(log, Linked(h, if files == [] then [] else [files[t]], draft), second, kind)
  {
    if log != [] { assert files[|log| - 1] == log[|log| - 1]; }
  }

  lemma {:induction false} UniformAlways(h: Digest, log: seq<Event>, acts: seq<Action>, second: int, kind: string)
    requires Audit.Numbered(log) && Drafts(acts, second, kind)
    ensures Uniform(log, Run(h, Start(log), acts), second, kind)
  {
    if acts != [] {
      var init := acts[..|acts| - 1];
      assert forall i :: 0 <= i < |init| ==> init[i] == acts[i];
      UniformAlways(h, log, init, second, kind);
      UniformStep(h, log, Run(h, Start(log), init), acts[|acts| - 1], second, kind);
    }
  }

  /** Writers of one type in one second collide on the name and take turns, so the log keeps verifying. */
  lemma SameNameTakesTurns(h: Digest, log: seq<Event>, acts: seq<Action>, second: int, kind: string, order: seq<Event>)
    requires Intact(h, log) && Audit.Numbered(log) && Drafts(acts, second, kind)
    requires Listing(Run(h, Start(log), acts).files, order)
    ensures Intact(h, order) && Audit.Numbered(order)
  {
    RunConsistent(h, log, acts);
    UniformAlways(h, log, acts, second, kind);
    var files := Run(h, Start(log), acts).files;
    forall i, j | 0 <= i < j < |files| ensures files[i].num != files[j].num {
      if i < |log| { assert files[i] == log[i] && (j < |log| ==> files[j] == log[j]); }
    }
    WithoutTwinsIntact(h, files, order);
  }

  // ----- Giving up is honest -----

  predicate Increasing(ns: seq<int>)
  {
    forall i, j :: 0 <= i < j < |ns| ==> ns[i] < ns[j]
  }

  /** A file of this number was created since the append began. */
  predicate FiledSince(files: seq<Event>, since: nat, n: int)
  {
    exists k :: since <= k < |files| && files[k].num == n
  }

  ghost predicate Losing(files: seq<Event>, w: Writer)
  {
    && w.since <= |files| && Increasing(w.refused)
    && (forall i :: 0 <= i < |w.refused| ==> FiledSince(files, w.since, w.refused[i]))
    && (w.phase.GaveUp? ==> |w.refused| == MAX_TRIES)
    && (w.phase.Reading? || w.phase.Holding? ==> |w.refused| < MAX_TRIES)
    && (w.phase.Holding? ==>
          && (forall i :: 0 <= i < |w.refused| ==> w.refused[i] < w.phase.event.num)
          && (forall k :: 0 <= k < |files| && files[k].num >= w.phase.event.num ==> k >= w.since))
  }

  lemma LosingMore(files: seq<Event>, e: Event, w: Writer)
    requires Losing(files, w)
    ensures Losing(files + [e], w)
  {
    forall i | 0 <= i < |w.refused| ensures FiledSince(files + [e], w.since, w.refused[i]) {
      assert FiledSince(files, w.since, w.refused[i]);
      var k :| w.since <= k < |files| && files[k].num == w.refused[i];
      assert (files + [e])[k] == files[k];
    }
  }

  lemma ReadLoses(h: Digest, files: seq<Event>, w: Writer, t: nat)
    requires Losing(files, w) && w.phase.Reading? && (files == [] || IsTail(files, t))
    ensures Losing(files, w.(phase := Holding(Linked(h, if files == [] then [] else [files[t]], w.draft), |files|)))
  {
    forall i | 0 <= i < |w.refused| ensures files != [] && w.refused[i] <= files[t].num {
      assert FiledSince(files, w.since, w.refused[i]);
    }
  }

  lemma RefusalLoses(files: seq<Event>, w: Writer)
    requires Losing(files, w) && w.phase.Holding? && Taken(files, w.phase.event)
    ensures Losing(files, Refused(w, w.phase.event))
  {
    var e := w.phase.event;
    var i :| 0 <= i < |files| && Name(files[i]) == Name(e);
    assert FiledSince(files, w.since, e.num);
  }

  ghost predicate AllLosing(s: State)
  {
    forall w :: w in s.writers ==> Losing(s.files, s.writers[w])
  }

  lemma LosingStep(h: Digest, s: State, a: Action)
    requires AllLosing(s)
    ensures AllLosing(Next(h, s, a))
  {
    var t := Next(h, s, a);
    forall w | w in t.writers ensures Losing(t.files, t.writers[w]) {
      if w in s.writers {
        var before := s.writers[w];
        if a.Read? && w == a.writer && before.phase.Reading? && (s.files == [] || IsTail(s.files, a.tail)) {
          ReadLoses(h, s.files, before, a.tail);
        }
        if a.Create? && w == a.writer && before.phase.Holding? && Taken(s.files, before.phase.event) {
          RefusalLoses(s.files, before);
        }
        if t.files != s.files { LosingMore(s.files, t.files[|s.files|], before); }
      }
    }
  }

  lemma {:induction false} DistinctFit(ns: seq<int>, late: seq<Event>)
    requires Increasing(ns) && forall i :: 0 <= i < |ns| ==> FiledSince(late, 0, ns[i])
    ensures |late| >= |ns|
    decreases |ns|
  {
    if ns != [] {
      var init, n := ns[..|ns| - 1], ns[|ns| - 1];
      assert FiledSince(late, 0, n);
      var k :| 0 <= k < |late| && late[k].num == n;
      var rest := late[..k] + late[k + 1..];
      forall i | 0 <= i < |init| ensures FiledSince(rest, 0, init[i]) {
        assert FiledSince(late, 0, ns[i]);
        var j :| 0 <= j < |late| && late[j].num == ns[i];
        assert rest[if j < k then j else j - 1] == late[j];
      }
      assert forall i :: 0 <= i < |init| ==> init[i] == ns[i];
      DistinctFit(init, rest);
    }
  }

  lemma {:induction false} LosingAlways(h: Digest, log: seq<Event>, acts: seq<Action>)
    ensures AllLosing(Run(h, Start(log), acts))
  {
    if acts != [] {
      LosingAlways(h, log, acts[..|acts| - 1]);
      LosingStep(h, Run(h, Start(log), acts[..|acts| - 1]), acts[|acts| - 1]);
    }
  }

  /** An append that gave up after 8 collisions saw at least 8 files come to be since it began, none of them its own. */
  lemma GaveUpIsHonest(h: Digest, log: seq<Event>, acts: seq<Action>, w: nat)
    requires var s := Run(h, Start(log), acts); w in s.writers && s.writers[w].phase.GaveUp?
    ensures var s := Run(h, Start(log), acts); |s.files| >= s.writers[w].since + MAX_TRIES
  {
    var s := Run(h, Start(log), acts);
    LosingAlways(h, log, acts);
    var writer := s.writers[w];
    var late := s.files[writer.since..];
    forall i | 0 <= i < |writer.refused| ensures FiledSince(late, 0, writer.refused[i]) {
      assert FiledSince(s.files, writer.since, writer.refused[i]);
      var k :| writer.since <= k < |s.files| && s.files[k].num == writer.refused[i];
      assert late[k - writer.since] == s.files[k];
    }
    DistinctFit(writer.refused, late);
  }

  // ----- The retry loop -----

  predicate Without(acts: seq<Action>, w: nat)
  {
    forall i :: 0 <= i < |acts| ==> acts[i].writer != w
  }

  lemma {:induction false} OthersKeepWriter(h: Digest, s: State, acts: seq<Action>, w: nat)
    requires Without(acts, w)
    ensures w in Run(h, s, acts).writers <==> w in s.writers
    ensures w in s.writers ==> Run(h, s, acts).writers[w] == s.writers[w]
  {
    if acts != [] {
      var init := acts[..|acts| - 1];
      assert forall i :: 0 <= i < |init| ==> init[i] == acts[i];
      OthersKeepWriter(h, s, init, w);
      assert acts[|acts| - 1].writer != w;
    }
  }

  method FindTail(files: seq<Event>) returns (t: nat)
    requires files != []
    ensures IsTail(files, t)
  {
    t := 0;
    for i := 1 to |files|
      invariant t < i && forall j :: 0 <= j < i ==> files[j].num <= files[t].num
    {
      if files[i].num >= files[t].num {
        t := i;
      }
    }
  }

  /** The shared directory. Its trace is every action any writer has taken on it. */
  class Directory {
    const digest: Digest
    const first: seq<Event>
    var s: State
    ghost var trace: seq<Action>

    ghost predicate Valid()
      reads this
    {
      s == Run(digest, Start(first), trace)
    }

    constructor (h: Digest, log: seq<Event>)
      ensures Valid() && s == Start(log) && digest == h && first == log
    {
      digest, first := h, log;
      s, trace := Start(log), [];
    }

    method Do(a: Action)
      requires Valid()
      modifies this
      ensures Valid() && s == Next(digest, old(s), a) && trace == old(trace) + [a]
    {
      RunStep(digest, Start(first), trace, a);
      s, trace := Next(digest, s, a), trace + [a];
    }

    /** Writer w waits while the others take some actions. */
    method Wait(w: nat, others: seq<Action>)
      requires Valid() && Without(others, w)
      modifies this
      ensures Valid() && s == Run(digest, old(s), others)
      ensures w in s.writers <==> w in old(s.writers)
      ensures w in s.writers ==> s.writers[w] == old(s.writers)[w]
    {
      for i := 0 to |others|
        invariant Valid() && s == Run(digest, old(s), others[..i])
      {
        RunStep(digest, old(s), others[..i], others[i]);
        assert others[..i + 1] == others[..i] + [others[i]];
        Do(others[i]);
      }
      assert others[..|others|] == others;
      OthersKeepWriter(digest, old(s), others, w);
    }

    /** One try: the tail is read, others act, and a file of that name is created if there is none. */
    method Try(w: nat, reading: seq<Action>, readable: bool, creating: seq<Action>, writable: bool)
      requires Valid() && w in s.writers && s.writers[w].phase.Reading?
      requires Without(reading, w) && Without(creating, w)
      modifies this
      ensures Valid() && w in s.writers
      ensures var writer, was := s.writers[w], old(s.writers)[w];
        || (writer.phase.Done? && s.files != [] && s.files[|s.files| - 1] == writer.phase.event)
        || writer.phase.IOError?
        || (|writer.refused| == |was.refused| + 1 &&
            writer.phase == if |writer.refused| >= MAX_TRIES then GaveUp else Reading)
    {
      Wait(w, reading);
      var t := 0;
      if s.files != [] {
        t := FindTail(s.files);
      }
      Do(Read(w, t, readable));
      if !readable {
        return;
      }
      Wait(w, creating);
      Do(Create(w, writable));
    }

    /**
     * Appends a draft as writer w. `others` are the actions that slip in before each access of this writer,
     * `ok` says which accesses the file system lets through. A success is the last file.
     */
    method Append(w: nat, draft: Event, others: nat -> seq<Action>, ok: nat -> bool) returns (result: Phase)
      requires Valid() && w !in s.writers
      requires forall i :: Without(others(i), w)
      modifies this
      ensures Valid() && w in s.writers && result == s.writers[w].phase
      ensures result.Done? || result.GaveUp? || result.IOError?
      ensures result.Done? ==> s.files != [] && s.files[|s.files| - 1] == result.event
    {
      Do(Begin(w, draft));
      for i := 0 to MAX_TRIES
        invariant Valid() && w in s.writers && |s.writers[w].refused| == i
        invariant s.writers[w].phase == if i >= MAX_TRIES then GaveUp else Reading
      {
        Try(w, others(2 * i), ok(2 * i), others(2 * i + 1), ok(2 * i + 1));
        if s.writers[w].phase.Done? || s.writers[w].phase.IOError? {
          return s.writers[w].phase;
        }
      }
      result := s.writers[w].phase;
    }
  }
}
