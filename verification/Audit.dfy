/** Appending to an attempt's hash chain and verifying it. */
module Audit {
  import opened Text
  import opened Events
  import opened Sorting

  // ----- Appending -----

  function LastNum(log: seq<Event>): int
  {
    if log == [] then 0 else log[|log| - 1].num
  }

  function LastHash(log: seq<Event>): string
  {
    if log == [] then "" else log[|log| - 1].hash
  }

  /** A draft as the log stores it: the next number, linked to the tail, hashed in whole seconds. */
  function Stamped(h: Digest, log: seq<Event>, draft: Event): Event
  {
    var e := draft.(num := LastNum(log) + 1, prev := LastHash(log), ts := draft.ts / SECOND * SECOND);
    e.(hash := ComputeHash(h, e))
  }

  function Append(h: Digest, log: seq<Event>, draft: Event): seq<Event>
  {
    log + [Stamped(h, log, draft)]
  }

  function AppendAll(h: Digest, log: seq<Event>, drafts: seq<Event>): seq<Event>
  {
    if drafts == [] then log else Append(h, AppendAll(h, log, drafts[..|drafts| - 1]), drafts[|drafts| - 1])
  }

  // ----- Verifying -----

  datatype Reason = PrevMismatch | HashMismatch

  datatype Report = Report(ok: bool, count: nat, brokenNum: int, reason: Option<Reason>)

  /** Why event i breaks the chain, if it does. */
  function Fault(h: Digest, log: seq<Event>, i: nat): Option<Reason>
    requires i < |log|
  {
    if log[i].prev != LastHash(log[..i]) then Some(PrevMismatch)
    else if ComputeHash(h, log[i]) != log[i].hash then Some(HashMismatch)
    else None
  }

  ghost predicate Intact(h: Digest, log: seq<Event>)
  {
    forall i :: 0 <= i < |log| ==> Fault(h, log, i) == None
  }

  /** Event i is the first to break the chain. */
  ghost predicate BreaksAt(h: Digest, log: seq<Event>, i: nat)
  {
    i < |log| && Fault(h, log, i).Some? && forall j :: 0 <= j < i ==> Fault(h, log, j) == None
  }

  method Verify(h: Digest, log: seq<Event>) returns (r: Report)
    ensures r.count == |log|
    ensures r.ok <==> Intact(h, log)
    ensures r.ok ==> r.brokenNum == 0 && r.reason == None
    ensures forall i: nat :: BreaksAt(h, log, i) ==> r == Report(false, |log|, log[i].num, Fault(h, log, i))
    ensures !r.ok ==> exists i: nat :: BreaksAt(h, log, i)
  {
    var prevHash := "";
    for i := 0 to |log|
      invariant prevHash == LastHash(log[..i])
      invariant forall j :: 0 <= j < i ==> Fault(h, log, j) == None
    {
      var e := log[i];
      if e.prev != prevHash {
        assert BreaksAt(h, log, i);
        return Report(false, |log|, e.num, Some(PrevMismatch));
      }
      if ComputeHash(h, e) != e.hash {
        assert BreaksAt(h, log, i);
        return Report(false, |log|, e.num, Some(HashMismatch));
      }
      prevHash := e.hash;
    }
    r := Report(true, |log|, 0, None);
  }

  /** The event carries its own hash, and the hash of the event before it or nothing. */
  predicate Chained(h: Digest, log: seq<Event>, i: nat)
    requires i < |log|
  {
    log[i].hash == ComputeHash(h, log[i]) && log[i].prev == if i == 0 then "" else log[i - 1].hash
  }

  /** Intact logs: every hash is that of its event's content, and every event carries the hash of the one before. */
  lemma IntactExactly(h: Digest, log: seq<Event>)
    ensures Intact(h, log) <==> forall i :: 0 <= i < |log| ==> Chained(h, log, i)
  {
    forall i | 0 <= i < |log|
      ensures Fault(h, log, i) == None <==> Chained(h, log, i)
    {
      if i > 0 { assert log[..i][i - 1] == log[i - 1]; }
    }
    if Intact(h, log) {
      forall i | 0 <= i < |log| ensures Chained(h, log, i) { assert Fault(h, log, i) == None; }
    }
  }

  /** What an append adds is the draft, but for the number, the link, the hash and the fraction of a second. */
  lemma AppendedIsDraft(h: Digest, log: seq<Event>, draft: Event)
    ensures var more := Append(h, log, draft);
      && |more| == |log| + 1 && more[..|log|] == log
      && var e := more[|log|];
      && e == draft.(num := e.num, prev := e.prev, hash := e.hash, ts := e.ts)
      && e.ts == draft.ts / SECOND * SECOND && e.hash == ComputeHash(h, e)
      && e.num == (if log == [] then 1 else log[|log| - 1].num + 1)
      && e.prev == (if log == [] then "" else log[|log| - 1].hash)
  {
    var e := Append(h, log, draft)[|log|];
    assert Canon(e) == Canon(e.(hash := draft.hash));
  }

  // ----- The chain is kept by appending and pinned by its last hash -----

  ghost predicate Numbered(log: seq<Event>)
  {
    forall i :: 0 <= i < |log| ==> log[i].num == i + 1
  }

  lemma AppendKeepsChain(h: Digest, log: seq<Event>, draft: Event)
    requires Intact(h, log) && Numbered(log)
    ensures Intact(h, Append(h, log, draft)) && Numbered(Append(h, log, draft))
  {
    var more := Append(h, log, draft);
    forall i | 0 <= i < |more|
      ensures Fault(h, more, i) == None
    {
      assert more[..i] == log[..i];
      if i < |log| {
        assert Fault(h, log, i) == None;
      } else {
        assert log[..i] == log;
        assert Canon(more[i]) == Canon(more[i].(hash := draft.hash));
      }
    }
  }

  lemma {:induction false} AppendAllKeepsChain(h: Digest, log: seq<Event>, drafts: seq<Event>)
    requires Intact(h, log) && Numbered(log)
    ensures Intact(h, AppendAll(h, log, drafts)) && Numbered(AppendAll(h, log, drafts))
    ensures log <= AppendAll(h, log, drafts) && |AppendAll(h, log, drafts)| == |log| + |drafts|
  {
    if drafts != [] {
      AppendAllKeepsChain(h, log, drafts[..|drafts| - 1]);
      AppendKeepsChain(h, AppendAll(h, log, drafts[..|drafts| - 1]), drafts[|drafts| - 1]);
    }
  }

  lemma IntactPrefix(h: Digest, log: seq<Event>, n: nat)
    requires Intact(h, log) && n <= |log|
    ensures Intact(h, log[..n])
  {
    forall i | 0 <= i < n
      ensures Fault(h, log[..n], i) == None
    {
      assert log[..n][..i] == log[..i];
      assert Fault(h, log, i) == None;
    }
  }

  /** Two contents with one hash, or a content hashed to the empty string: a failure of the digest. */
  ghost predicate Weak(h: Digest, a: seq<Event>, b: seq<Event>)
  {
    || (exists i, j :: 0 <= i < |a| && 0 <= j < |b| && Canon(a[i]) != Canon(b[j]) && ComputeHash(h, a[i]) == ComputeHash(h, b[j]))
    || (exists i :: 0 <= i < |a| && ComputeHash(h, a[i]) == "")
    || (exists i :: 0 <= i < |b| && ComputeHash(h, b[i]) == "")
  }

  ghost predicate SameContent(a: seq<Event>, b: seq<Event>)
  {
    |a| == |b| && forall i :: 0 <= i < |a| ==> Canon(a[i]) == Canon(b[i]) && a[i].hash == b[i].hash
  }

  lemma WeakPrefix(h: Digest, a: seq<Event>, b: seq<Event>, m: nat, n: nat)
    requires m <= |a| && n <= |b| && Weak(h, a[..m], b[..n])
    ensures Weak(h, a, b)
  {
  }

  lemma LastLink(h: Digest, a: seq<Event>)
    requires Intact(h, a) && a != []
    ensures a[|a| - 1].prev == LastHash(a[..|a| - 1]) && ComputeHash(h, a[|a| - 1]) == a[|a| - 1].hash
  {
    assert Fault(h, a, |a| - 1) == None;
  }

  /** Two equal hashes come from equal contents, or the digest collides. */
  lemma LastsAgree(h: Digest, a: seq<Event>, b: seq<Event>)
    requires Intact(h, a) && Intact(h, b) && a != [] && b != [] && LastHash(a) == LastHash(b)
    ensures Canon(a[|a| - 1]) == Canon(b[|b| - 1]) || Weak(h, a, b)
  {
    LastLink(h, a);
    LastLink(h, b);
  }

  lemma EmptyHashIsWeak(h: Digest, a: seq<Event>, b: seq<Event>)
    requires Intact(h, a) && Intact(h, b) && LastHash(a) == LastHash(b) && (a == [] || b == [])
    ensures SameContent(a, b) || Weak(h, a, b)
  {
    if a != [] { LastLink(h, a); }
    if b != [] { LastLink(h, b); }
  }

  lemma ExtendSameContent(a: seq<Event>, b: seq<Event>, m: nat)
    requires |a| == |b| == m + 1 && SameContent(a[..m], b[..m])
    requires Canon(a[m]) == Canon(b[m]) && a[m].hash == b[m].hash
    ensures SameContent(a, b)
  {
    forall i | 0 <= i < |a|
      ensures Canon(a[i]) == Canon(b[i]) && a[i].hash == b[i].hash
    {
      if i < m { assert a[i] == a[..m][i] && b[i] == b[..m][i]; }
    }
  }

  lemma PinLast(h: Digest, a: seq<Event>, b: seq<Event>)
    requires Intact(h, a) && Intact(h, b) && a != [] && b != [] && LastHash(a) == LastHash(b)
    requires Canon(a[|a| - 1]) == Canon(b[|b| - 1])
    requires SameContent(a[..|a| - 1], b[..|b| - 1]) || Weak(h, a[..|a| - 1], b[..|b| - 1])
    ensures SameContent(a, b) || Weak(h, a, b)
  {
    if Weak(h, a[..|a| - 1], b[..|b| - 1]) {
      WeakPrefix(h, a, b, |a| - 1, |b| - 1);
    } else {
      ExtendSameContent(a, b, |a| - 1);
    }
  }

  lemma PrefixHash(h: Digest, a: seq<Event>, b: seq<Event>)
    requires Intact(h, a) && Intact(h, b) && a != [] && b != [] && Canon(a[|a| - 1]) == Canon(b[|b| - 1])
    ensures Intact(h, a[..|a| - 1]) && Intact(h, b[..|b| - 1]) && LastHash(a[..|a| - 1]) == LastHash(b[..|b| - 1])
  {
    LastLink(h, a);
    LastLink(h, b);
    IntactPrefix(h, a, |a| - 1);
    IntactPrefix(h, b, |b| - 1);
  }

  /** Verified logs with one last hash are the same log, unless the digest itself has failed. */
  lemma {:induction false} LastHashPinsLog(h: Digest, a: seq<Event>, b: seq<Event>)
    requires Intact(h, a) && Intact(h, b) && LastHash(a) == LastHash(b)
    ensures SameContent(a, b) || Weak(h, a, b)
    decreases |a|
  {
    if a == [] || b == [] {
      EmptyHashIsWeak(h, a, b);
    } else {
      LastsAgree(h, a, b);
      if Canon(a[|a| - 1]) == Canon(b[|b| - 1]) {
        PrefixHash(h, a, b);
        LastHashPinsLog(h, a[..|a| - 1], b[..|b| - 1]);
        PinLast(h, a, b);
      }
    }
  }

  ghost predicate Injective(h: Digest)
  {
    && (forall c, d :: h(c) == h(d) ==> c == d)
    && (forall c :: h(c) != "")
  }

  /** With a collision-free digest, the last hash determines the whole log. */
  lemma LastHashDeterminesLog(h: Digest, a: seq<Event>, b: seq<Event>)
    requires Injective(h) && Intact(h, a) && Intact(h, b)
    ensures LastHash(a) == LastHash(b) <==> SameContent(a, b)
  {
    if LastHash(a) == LastHash(b) { LastHashPinsLog(h, a, b); }
  }

  // ----- Tampering with one event -----

  lemma FaultsBefore(h: Digest, log: seq<Event>, edited: seq<Event>, i: nat)
    requires Intact(h, log) && i < |log| == |edited| && edited[..i] == log[..i]
    ensures forall j :: 0 <= j < i ==> Fault(h, edited, j) == None
  {
    forall j | 0 <= j < i
      ensures Fault(h, edited, j) == None
    {
      assert edited[j] == edited[..i][j] && log[j] == log[..i][j];
      assert edited[..j] == edited[..i][..j] && log[..j] == log[..i][..j];
      assert Fault(h, log, j) == None;
    }
  }

  /** The digest gives one hash to the different contents of two events. */
  predicate Collides(h: Digest, a: Event, b: Event)
  {
    Canon(a) != Canon(b) && ComputeHash(h, a) == ComputeHash(h, b)
  }

  /** An edit of anything that is stored, but for the hash, is reported at the edited event. */
  lemma EditIsReported(h: Digest, log: seq<Event>, i: nat, e: Event)
    requires Intact(h, log) && i < |log|
    requires !SameStored(e, log[i]) && e.hash == log[i].hash && !Collides(h, e, log[i])
    ensures BreaksAt(h, log[i := e], i)
    ensures Fault(h, log[i := e], i) == Some(if e.prev != log[i].prev then PrevMismatch else HashMismatch)
  {
    CanonExactly(e, log[i]);
    assert log[i := e][..i] == log[..i];
    FaultsBefore(h, log, log[i := e], i);
    assert Fault(h, log, i) == None;
  }

  /** An edit that changes nothing that is stored passes. */
  lemma StoredEditPasses(h: Digest, log: seq<Event>, i: nat, e: Event)
    requires Intact(h, log) && i < |log| && SameStored(e, log[i]) && e.hash == log[i].hash
    ensures Intact(h, log[i := e])
  {
    CanonExactly(e, log[i]);
    IntactExactly(h, log);
    IntactExactly(h, log[i := e]);
    var edited := log[i := e];
    forall k: nat | k < |log| ensures Chained(h, edited, k) {
      assert Chained(h, log, k);
    }
  }

  /**
   * An edit that recomputes the hash is reported at the edited event if it touched the link, else at
   * the next event; only an edit of the last event passes.
   */
  lemma RehashedEditIsReported(h: Digest, log: seq<Event>, i: nat, e: Event)
    requires Intact(h, log) && i < |log|
    requires !SameStored(e, log[i]) && e.hash == ComputeHash(h, e) && !Collides(h, e, log[i])
    ensures e.prev != log[i].prev ==> BreaksAt(h, log[i := e], i)
    ensures e.prev == log[i].prev && i + 1 < |log| ==>
              BreaksAt(h, log[i := e], i + 1) && Fault(h, log[i := e], i + 1) == Some(PrevMismatch)
    ensures e.prev == log[i].prev && i + 1 == |log| ==> Intact(h, log[i := e])
  {
    CanonExactly(e, log[i]);
    var edited := log[i := e];
    assert edited[..i] == log[..i];
    FaultsBefore(h, log, edited, i);
    assert Fault(h, log, i) == None;
    if i + 1 < |log| {
      assert Fault(h, log, i + 1) == None;
      assert LastHash(edited[..i + 1]) == e.hash && LastHash(log[..i + 1]) == log[i].hash;
    }
  }

  // ----- Writing a log out and reading it back -----

  function Stored(log: seq<Event>): seq<Event>
  {
    seq(|log|, i requires 0 <= i < |log| => Normal(log[i]))
  }

  function Files(y: Yaml, log: seq<Event>): seq<string>
  {
    seq(|log|, i requires 0 <= i < |log| => Marshal(y, log[i]))
  }

  /** Reads the files in order; any file that does not parse fails the whole read. */
  function Gather(parse: string -> Parsed, files: seq<string>): Option<seq<Event>>
  {
    if files == [] then Some([])
    else
      match (Gather(parse, files[..|files| - 1]), parse(files[|files| - 1]))
      case (Some(log), Ok(e)) => Some(log + [e])
      case _ => None
  }

  function Parser(y: Yaml): string -> Parsed
  {
    file => Parse(y, file)
  }

  function ReadAll(y: Yaml, files: seq<string>): Option<seq<Event>>
  {
    Gather(Parser(y), files)
  }

  lemma {:induction false} GatherBack(parse: string -> Parsed, files: seq<string>, log: seq<Event>)
    requires |files| == |log| && forall i :: 0 <= i < |log| ==> parse(files[i]) == Ok(log[i])
    ensures Gather(parse, files) == Some(log)
  {
    if log != [] {
      var n := |log| - 1;
      GatherBack(parse, files[..n], log[..n]);
      assert log == log[..n] + [log[n]];
    }
  }

  lemma ReadBack(y: Yaml, log: seq<Event>)
    requires forall i :: 0 <= i < |log| ==> Encodes(y, log[i])
    ensures ReadAll(y, Files(y, log)) == Some(Stored(log))
  {
    var files := Files(y, log);
    forall i | 0 <= i < |log| ensures Parser(y)(files[i]) == Ok(Normal(log[i])) {
      ParseMarshal(y, log[i]);
    }
    GatherBack(Parser(y), files, Stored(log));
  }

  lemma StoredFault(h: Digest, log: seq<Event>, i: nat)
    requires i < |log|
    ensures Fault(h, Stored(log), i) == Fault(h, log, i)
  {
    NormalHashesAlike(log[i]);
    assert LastHash(Stored(log)[..i]) == LastHash(log[..i]);
  }

  /** Storage does not change what verification finds. */
  ghost predicate VerifyAlike(h: Digest, a: seq<Event>, b: seq<Event>)
  {
    && |a| == |b| && (Intact(h, a) <==> Intact(h, b))
    && (forall i: nat :: BreaksAt(h, a, i) <==> BreaksAt(h, b, i))
    && (forall i :: 0 <= i < |a| ==> a[i].num == b[i].num && Fault(h, a, i) == Fault(h, b, i))
  }

  lemma StoredVerifiesAlike(h: Digest, log: seq<Event>)
    ensures VerifyAlike(h, Stored(log), log)
  {
    forall i: nat | i < |log|
      ensures Fault(h, Stored(log), i) == Fault(h, log, i)
    {
      StoredFault(h, log, i);
    }
  }

  /** A log that was written and re-read verifies exactly when it did before, with the same report. */
  lemma RereadVerifiesAlike(h: Digest, y: Yaml, log: seq<Event>)
    requires forall i :: 0 <= i < |log| ==> Encodes(y, log[i])
    ensures ReadAll(y, Files(y, log)).Some? && VerifyAlike(h, ReadAll(y, Files(y, log)).value, log)
  {
    ReadBack(y, log);
    StoredVerifiesAlike(h, log);
  }

  // ----- A directory lists the files in its own order -----

  /** Two events carry one number. */
  ghost predicate Twins(files: seq<Event>)
  {
    exists i, j :: 0 <= i < j < |files| && files[i].num == files[j].num
  }

  /** The events sorted by number, equal numbers in any order. */
  ghost predicate Listing(files: seq<Event>, order: seq<Event>)
  {
    && multiset(order) == multiset(files)
    && forall i, j :: 0 <= i < j < |order| ==> order[i].num <= order[j].num
  }

  lemma ListedMembers(files: seq<Event>, order: seq<Event>)
    requires multiset(order) == multiset(files)
    ensures forall e :: e in order <==> e in files
  {
    assert forall e :: e in order <==> e in multiset(order);
    assert forall e :: e in files <==> e in multiset(files);
  }

  lemma CountedTwice(s: seq<Event>, i: nat, j: nat)
    requires i < j < |s| && s[i] == s[j]
    ensures multiset(s)[s[i]] >= 2
  {
    assert s == s[..j] + [s[j]] + s[j + 1..];
    assert s[..j][i] == s[i] && s[i] in multiset(s[..j]);
  }

  lemma CountedOnce(s: seq<Event>, a: nat)
    requires a < |s| && !Twins(s)
    ensures multiset(s)[s[a]] == 1
  {
    assert s == s[..a] + [s[a]] + s[a + 1..];
    assert s[a] !in s[..a];
    assert s[a] !in s[a + 1..];
  }

  lemma DistinctListing(files: seq<Event>, order: seq<Event>)
    requires Listing(files, order) && !Twins(files)
    ensures forall i, j :: 0 <= i < j < |order| ==> order[i].num < order[j].num
  {
    ListedMembers(files, order);
    forall i, j | 0 <= i < j < |order| ensures order[i].num < order[j].num {
      assert order[i] in files && order[j] in files;
      var a :| 0 <= a < |files| && files[a] == order[i];
      var b :| 0 <= b < |files| && files[b] == order[j];
      if order[i].num == order[j].num {
        assert a == b;
        CountedTwice(order, i, j);
        CountedOnce(files, a);
      }
    }
  }

  lemma AscendingOnce(order: seq<Event>, p: nat)
    requires p < |order| && forall i, j :: 0 <= i < j < |order| ==> order[i].num < order[j].num
    ensures multiset(order)[order[p]] == 1
  {
    CountedOnce(order, p);
  }

  lemma StrictHasNoTwins(files: seq<Event>, order: seq<Event>)
    requires Listing(files, order)
    requires forall i, j :: 0 <= i < j < |order| ==> order[i].num < order[j].num
    ensures !Twins(files)
  {
    ListedMembers(files, order);
    forall a, b | 0 <= a < b < |files| ensures files[a].num != files[b].num {
      assert files[a] in order && files[b] in order;
      var p :| 0 <= p < |order| && order[p] == files[a];
      var q :| 0 <= q < |order| && order[q] == files[b];
      if files[a] == files[b] {
        CountedTwice(files, a, b);
        AscendingOnce(order, p);
      }
    }
  }

  lemma GatherLast(parse: string -> Parsed, files: seq<string>, file: string)
    ensures Gather(parse, files + [file]) == if Gather(parse, files).Some? && parse(file).Ok?
                                             then Some(Gather(parse, files).value + [parse(file).event]) else None
  {
    assert (files + [file])[..|files|] == files;
  }

  lemma {:induction false} GatherConcat(parse: string -> Parsed, a: seq<string>, b: seq<string>)
    ensures Gather(parse, a + b).Some? <==> Gather(parse, a).Some? && Gather(parse, b).Some?
    ensures Gather(parse, a + b).Some? ==> Gather(parse, a + b).value == Gather(parse, a).value + Gather(parse, b).value
  {
    if b == [] {
      assert a + b == a;
    } else {
      var init, last := b[..|b| - 1], b[|b| - 1];
      GatherConcat(parse, a, init);
      GatherLast(parse, a + init, last);
      GatherLast(parse, init, last);
      assert a + b == (a + init) + [last] && b == init + [last];
    }
  }

  lemma GatherAt(parse: string -> Parsed, before: seq<string>, file: string, after: seq<string>)
    requires Gather(parse, before + after).Some? && parse(file).Ok?
    ensures Gather(parse, before + [file] + after).Some?
    ensures multiset(Gather(parse, before + [file] + after).value)
         == multiset(Gather(parse, before + after).value) + multiset{parse(file).event}
  {
    GatherConcat(parse, before, after);
    GatherLast(parse, before, file);
    GatherConcat(parse, before + [file], after);
  }

  lemma RemoveOne(s: seq<string>, k: nat)
    requires k < |s|
    ensures multiset(s) == multiset(s[..k] + s[k + 1..]) + multiset{s[k]}
  {
    assert s == s[..k] + [s[k]] + s[k + 1..];
  }

  lemma PlaceOf(s: seq<string>, x: string) returns (k: nat)
    requires x in multiset(s)
    ensures k < |s| && s[k] == x
  {
    k :| k < |s| && s[k] == x;
  }

  lemma RemoveLast(a: seq<string>, k: nat, b: seq<string>, last: string)
    requires multiset(a) == multiset(b + [last]) && k < |a| && a[k] == last
    ensures a == a[..k] + [last] + a[k + 1..]
    ensures multiset(a[..k] + a[k + 1..]) == multiset(b)
  {
    RemoveOne(a, k);
    assert multiset(a[..k] + a[k + 1..]) == multiset(a) - multiset{last};
    assert multiset(b) == multiset(b + [last]) - multiset{last};
  }

  /** The order of the files does not matter to what is read. */
  lemma {:induction false} GatherAnyOrder(parse: string -> Parsed, a: seq<string>, b: seq<string>)
    requires multiset(a) == multiset(b) && Gather(parse, b).Some?
    ensures Gather(parse, a).Some? && multiset(Gather(parse, a).value) == multiset(Gather(parse, b).value)
    decreases |b|
  {
    if b == [] {
      assert a == [];
    } else {
      var init, last := b[..|b| - 1], b[|b| - 1];
      assert b == init + [last];
      GatherLast(parse, init, last);
      var k := PlaceOf(a, last);
      var before, after := a[..k], a[k + 1..];
      RemoveLast(a, k, init, last);
      GatherAnyOrder(parse, before + after, init);
      GatherAt(parse, before, last, after);
    }
  }

  /** Whatever order a directory lists the files in, they read as the stored events. */
  lemma ReadAnyOrder(y: Yaml, log: seq<Event>, files: seq<string>)
    requires forall i :: 0 <= i < |log| ==> Encodes(y, log[i])
    requires multiset(files) == multiset(Files(y, log))
    ensures ReadAll(y, files).Some? && multiset(ReadAll(y, files).value) == multiset(Stored(log))
  {
    ReadBack(y, log);
    GatherAnyOrder(Parser(y), files, Files(y, log));
  }

  function ByNumber(): (Event, Event) -> bool
  {
    (a: Event, b: Event) => a.num < b.num
  }

  /** A numbered log has one listing. */
  lemma ListingUnique(log: seq<Event>, order: seq<Event>)
    requires Listing(log, order) && Numbered(log)
    ensures order == log
  {
    DistinctListing(log, order);
    ListedMembers(log, order);
    AscendingUnique(ByNumber(), order, log);
  }

  /** A log written out and read back from its directory, in any order, then sorted by number, is the stored log. */
  lemma ReadBackSorted(y: Yaml, log: seq<Event>, files: seq<string>, order: seq<Event>)
    requires Numbered(log) && forall i :: 0 <= i < |log| ==> Encodes(y, log[i])
    requires multiset(files) == multiset(Files(y, log))
    ensures ReadAll(y, files).Some?
    ensures Listing(ReadAll(y, files).value, order) <==> order == Stored(log)
  {
    ReadAnyOrder(y, log, files);
    var back := ReadAll(y, files).value;
    if Listing(back, order) {
      assert Listing(Stored(log), order);
      ListingUnique(Stored(log), order);
    }
  }
}
