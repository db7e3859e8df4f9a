/** Captures that run at the same time: looking for a free key and making its directory are two accesses. */
module CaptureRace {
  import opened Text
  import opened RunKeys
  import opened Artefacts

  /** The directories a capture tries: the first, the second, ... */
  type Places = nat -> Path

  /** The directories of a context's candidate keys. */
  function PlacesOf(base: Path, rc: RunContext): Places
  {
    (n: nat) => Locate(base, Candidate(rc.KeyBase(), n))
  }

  datatype Phase = Trying(n: nat) | Ready(dir: Path) | Made(dir: Path) | Failed

  /** `looked` and `made` count the directories made before the call's last look and before its own. */
  datatype Call = Call(places: Places, phase: Phase, looked: nat, made: nat)

  datatype Shared = Shared(store: Store, calls: map<nat, Call>, makes: nat)

  /** One access of one call: a look at the next candidate, or making the directory and filling it. */
  datatype Access = Begin(call: nat, places: Places) | Look(call: nat) | Make(call: nat, copy: Copy)

  function Looked(s: Shared, c: Call): Call
    requires c.phase.Trying?
  {
    var dir := c.places(c.phase.n);
    match s.store.Stat(dir)
    case Found => c.(phase := Trying(c.phase.n + 1))
    case Missing => c.(phase := Ready(dir), looked := s.makes)
    case Broken => c.(phase := Failed)
  }

  /** Making the directory never fails here; filling it may. */
  function Filling(s: Shared, c: Call, copy: Copy): Call
    requires c.phase.Ready?
  {
    c.(phase := if copy.complete && copy.written then Made(c.phase.dir) else Failed, made := s.makes)
  }

  function Next(s: Shared, a: Access): Shared
  {
    var c := a.call;
    if a.Begin? then if c in s.calls then s else s.(calls := s.calls[c := Call(a.places, Trying(1), 0, 0)])
    else if c !in s.calls then s
    else
      var call := s.calls[c];
      match a
      case Look(_) => if call.phase.Trying? then s.(calls := s.calls[c := Looked(s, call)]) else s
      case Make(_, copy) =>
        if !call.phase.Ready? then s
        else Shared(Filled(s.store, call.phase.dir, copy), s.calls[c := Filling(s, call, copy)], s.makes + 1)
  }

  function Run(s: Shared, acts: seq<Access>): Shared
  {
    if acts == [] then s else Next(Run(s, acts[..|acts| - 1]), acts[|acts| - 1])
  }

  function Alone(store: Store): Shared
  {
    Shared(store, map[], 0)
  }

  /** A directory that was made is there, and no call that looked later holds it. */
  ghost predicate Apiece(s: Shared)
  {
    && (forall c :: c in s.calls ==> s.calls[c].looked <= s.makes)
    && (forall c :: c in s.calls && s.calls[c].phase.Made? ==>
          s.calls[c].made < s.makes && s.store.Has(s.calls[c].phase.dir))
    && forall c, d :: c in s.calls && d in s.calls && c != d && s.calls[c].phase.Made?
         && (s.calls[d].phase.Ready? || s.calls[d].phase.Made?) && s.calls[c].made < s.calls[d].looked
         ==> s.calls[c].phase.dir != s.calls[d].phase.dir
  }

  lemma MadeIsThere(s: Store, dir: Path, copy: Copy)
    ensures Filled(s, dir, copy).Has(dir) && Grows(s, Filled(s, dir, copy))
  {
    assert dir == dir[..|dir|];
  }

  lemma MadeApiece(s: Shared, c: nat, copy: Copy)
    requires Apiece(s) && c in s.calls && s.calls[c].phase.Ready?
    ensures Apiece(Next(s, Make(c, copy)))
  {
    MadeIsThere(s.store, s.calls[c].phase.dir, copy);
  }

  lemma LookedApiece(s: Shared, d: nat)
    requires Apiece(s) && d in s.calls && s.calls[d].phase.Trying?
    ensures Apiece(Next(s, Look(d)))
  {
    var t := Next(s, Look(d));
    if t.calls[d].phase.Ready? { assert !s.store.Has(t.calls[d].phase.dir); }
  }

  lemma ApieceStep(s: Shared, a: Access)
    requires Apiece(s)
    ensures Apiece(Next(s, a))
  {
    if a.call in s.calls {
      if a.Make? && s.calls[a.call].phase.Ready? { MadeApiece(s, a.call, a.copy); }
      if a.Look? && s.calls[a.call].phase.Trying? { LookedApiece(s, a.call); }
    }
  }

  lemma {:induction false} ApieceAlways(store: Store, acts: seq<Access>)
    ensures Apiece(Run(Alone(store), acts))
  {
    if acts != [] {
      ApieceAlways(store, acts[..|acts| - 1]);
      ApieceStep(Run(Alone(store), acts[..|acts| - 1]), acts[|acts| - 1]);
    }
  }

  /** In every interleaving two captures share a directory only if each looked before the other's was made. */
  lemma SharingNeedsOverlap(store: Store, acts: seq<Access>, c: nat, d: nat)
    requires var s := Run(Alone(store), acts);
      c in s.calls && d in s.calls && c != d && s.calls[c].phase.Made? && s.calls[d].phase.Made?
      && s.calls[c].phase.dir == s.calls[d].phase.dir
    ensures var s := Run(Alone(store), acts);
      s.calls[d].looked <= s.calls[c].made && s.calls[c].looked <= s.calls[d].made
  {
    ApieceAlways(store, acts);
  }

  lemma RunStep(s: Shared, acts: seq<Access>, a: Access)
    ensures Run(s, acts + [a]) == Next(Run(s, acts), a)
  {
    assert (acts + [a])[..|acts|] == acts;
  }

  lemma {:induction false} RunConcat(s: Shared, a: seq<Access>, b: seq<Access>)
    ensures Run(s, a + b) == Run(Run(s, a), b)
  {
    if b == [] {
      assert a + b == a;
    } else {
      var init, last := b[..|b| - 1], b[|b| - 1];
      RunConcat(s, a, init);
      assert a + b == a + init + [last];
      RunStep(s, a + init, last);
    }
  }

  // ----- Two captures that share looked at the store as it was -----

  /** Two captures, trying these places, and nobody else. */
  ghost predicate Only(acts: seq<Access>, a: Places, b: Places)
  {
    forall i :: 0 <= i < |acts| ==> Fits(acts[i], a, b)
  }

  ghost predicate Fits(x: Access, a: Places, b: Places)
  {
    x.call <= 1 && (x.Begin? ==> x.places == if x.call == 0 then a else b)
  }

  /** Both succeeded, in one directory. */
  predicate Share(s: Shared)
  {
    0 in s.calls && 1 in s.calls && s.calls[0].phase.Made? && s.calls[0].phase == s.calls[1].phase
  }

  predicate Ended(s: Shared, c: nat)
  {
    c in s.calls && (s.calls[c].phase.Made? || s.calls[c].phase.Failed?)
  }

  /** The first n - 1 places are there. */
  ghost predicate TakenUpTo(store: Store, places: Places, n: nat)
  {
    n >= 1 && forall m :: 1 <= m < n ==> store.Stat(places(m)) == Found
  }

  ghost predicate FirstMissing(store: Store, places: Places, n: nat)
  {
    TakenUpTo(store, places, n) && store.Stat(places(n)) == Missing
  }

  ghost predicate FirstPlace(store: Store, places: Places, dir: Path)
  {
    exists n: nat :: FirstMissing(store, places, n) && dir == places(n)
  }

  /** While nothing has been made, the store is as it was, and what a call has found holds of it. */
  ghost predicate Tracked(store: Store, call: Call, makes: nat)
  {
    && (call.phase.Trying? && makes == 0 ==> TakenUpTo(store, call.places, call.phase.n))
    && ((call.phase.Ready? || call.phase.Made?) && call.looked == 0 ==> FirstPlace(store, call.places, call.phase.dir))
    && (call.phase.Made? ==> call.looked <= call.made)
  }

  predicate EndedBefore(s: Shared, c: nat, n: nat)
  {
    Ended(s, c) && (s.calls[c].phase.Made? ==> s.calls[c].made < n)
  }

  /** A call that made its directory second finds the other ended. */
  ghost predicate SecondLast(s: Shared, c: nat)
    requires c <= 1 && c in s.calls
  {
    var call := s.calls[c];
    call.phase.Made? && call.made > 0 ==> EndedBefore(s, 1 - c, call.made)
  }

  ghost predicate Paired(store: Store, s: Shared, a: Places, b: Places)
  {
    && Apiece(s) && (s.makes == 0 ==> s.store == store)
    && (s.makes > 0 ==> Ended(s, 0) || Ended(s, 1))
    && (forall c :: c in s.calls ==> c <= 1 && s.calls[c].places == if c == 0 then a else b)
    && (forall c :: c in s.calls ==> Tracked(store, s.calls[c], s.makes) && SecondLast(s, c))
  }

  lemma LookTracked(store: Store, s: Shared, call: Call)
    requires call.phase.Trying? && Tracked(store, call, s.makes) && (s.makes == 0 ==> s.store == store)
    ensures Tracked(store, Looked(s, call), s.makes)
  {
    if s.makes == 0 && s.store.Stat(call.places(call.phase.n)) == Missing {
      assert FirstMissing(store, call.places, call.phase.n);
    }
  }

  lemma MakeTracked(store: Store, s: Shared, call: Call, copy: Copy)
    requires call.phase.Ready? && Tracked(store, call, s.makes) && call.looked <= s.makes
    ensures Tracked(store, Filling(s, call, copy), s.makes + 1)
  {
  }

  lemma LookPaired(store: Store, s: Shared, a: Places, b: Places, c: nat)
    requires Paired(store, s, a, b) && c in s.calls && s.calls[c].phase.Trying?
    ensures Paired(store, Next(s, Look(c)), a, b)
  {
    var t := Next(s, Look(c));
    LookedApiece(s, c);
    LookTracked(store, s, s.calls[c]);
    forall d | d in t.calls
      ensures d <= 1 && t.calls[d].places == (if d == 0 then a else b) && Tracked(store, t.calls[d], t.makes)
      ensures SecondLast(t, d)
    {
      assert Tracked(store, s.calls[d], s.makes) && SecondLast(s, d);
    }
  }

  /** Whoever makes a directory second makes it after the other, which has ended. */
  lemma MakeSecond(store: Store, s: Shared, a: Places, b: Places, c: nat, d: nat, copy: Copy)
    requires Paired(store, s, a, b) && c in s.calls && s.calls[c].phase.Ready? && d in s.calls
    ensures d <= 1 && SecondLast(Next(s, Make(c, copy)), d)
  {
    assert c <= 1 && d <= 1 && SecondLast(s, d);
  }

  lemma MakePaired(store: Store, s: Shared, a: Places, b: Places, c: nat, copy: Copy)
    requires Paired(store, s, a, b) && c in s.calls && s.calls[c].phase.Ready?
    ensures Paired(store, Next(s, Make(c, copy)), a, b)
  {
    var t := Next(s, Make(c, copy));
    MadeApiece(s, c, copy);
    MakeTracked(store, s, s.calls[c], copy);
    assert Ended(t, c);
    forall d | d in t.calls
      ensures d <= 1 && t.calls[d].places == (if d == 0 then a else b) && Tracked(store, t.calls[d], t.makes)
      ensures SecondLast(t, d)
    {
      MakeSecond(store, s, a, b, c, d, copy);
      assert Tracked(store, s.calls[d], s.makes);
    }
  }

  lemma BeginPaired(store: Store, s: Shared, a: Places, b: Places, x: Access)
    requires Paired(store, s, a, b) && Fits(x, a, b) && x.Begin? && x.call !in s.calls
    ensures Paired(store, Next(s, x), a, b)
  {
    var t := Next(s, x);
    ApieceStep(s, x);
    forall d | d in t.calls
      ensures d <= 1 && t.calls[d].places == (if d == 0 then a else b) && Tracked(store, t.calls[d], t.makes)
      ensures SecondLast(t, d)
    {
      if d != x.call { assert Tracked(store, s.calls[d], s.makes) && SecondLast(s, d); }
    }
  }

  lemma PairedStep(store: Store, s: Shared, a: Places, b: Places, x: Access)
    requires Paired(store, s, a, b) && Fits(x, a, b)
    ensures Paired(store, Next(s, x), a, b)
  {
    if x.call in s.calls {
      if x.Look? && s.calls[x.call].phase.Trying? { LookPaired(store, s, a, b, x.call); }
      if x.Make? && s.calls[x.call].phase.Ready? { MakePaired(store, s, a, b, x.call, x.copy); }
    } else if x.Begin? {
      BeginPaired(store, s, a, b, x);
    }
  }

  lemma {:induction false} PairedAlways(store: Store, acts: seq<Access>, a: Places, b: Places)
    requires Only(acts, a, b)
    ensures Paired(store, Run(Alone(store), acts), a, b)
  {
    if acts != [] {
      var init := acts[..|acts| - 1];
      assert forall i :: 0 <= i < |init| ==> init[i] == acts[i];
      PairedAlways(store, init, a, b);
      PairedStep(store, Run(Alone(store), init), a, b, acts[|acts| - 1]);
    }
  }

  lemma SharersLookedFirst(store: Store, s: Shared, a: Places, b: Places)
    requires Paired(store, s, a, b) && Share(s)
    ensures s.calls[0].looked == 0 && s.calls[1].looked == 0
  {
    assert Tracked(store, s.calls[0], s.makes) && Tracked(store, s.calls[1], s.makes);
    assert SecondLast(s, 0) && SecondLast(s, 1);
  }

  lemma FirstPlaceUnique(store: Store, places: Places, n: nat, dir: Path)
    requires TakenUpTo(store, places, n) && store.Stat(places(n)) != Found && FirstPlace(store, places, dir)
    ensures store.Stat(places(n)) == Missing && dir == places(n)
  {
    var m: nat :| FirstMissing(store, places, m) && dir == places(m);
    assert m == n;
  }

  // ----- Two captures that look before either makes share -----

  /** A call that looks n times. */
  function Looks(c: nat, n: nat): seq<Access>
  {
    if n == 0 then [] else Looks(c, n - 1) + [Look(c)]
  }

  function With(s: Shared, c: nat, call: Call): Shared
  {
    s.(calls := s.calls[c := call])
  }

  lemma WithTwice(s: Shared, c: nat, x: Call, y: Call)
    ensures With(With(s, c, x), c, y) == With(s, c, y)
  {
    assert s.calls[c := x][c := y] == s.calls[c := y];
  }

  function LookAgain(s: Shared, call: Call, n: nat): Call
  {
    if n == 0 then call
    else
      var before := LookAgain(s, call, n - 1);
      if before.phase.Trying? then Looked(s, before) else before
  }

  lemma LookWith(s: Shared, c: nat, call: Call)
    ensures Next(With(s, c, call), Look(c)) == With(s, c, LookAgain(s, call, 1))
  {
    assert LookAgain(s, call, 0) == call;
    WithTwice(s, c, call, LookAgain(s, call, 1));
  }

  lemma {:induction false} LooksWith(s: Shared, c: nat, call: Call, n: nat)
    ensures Run(With(s, c, call), Looks(c, n)) == With(s, c, LookAgain(s, call, n))
  {
    if n > 0 {
      LooksWith(s, c, call, n - 1);
      RunStep(With(s, c, call), Looks(c, n - 1), Look(c));
      LookWith(s, c, LookAgain(s, call, n - 1));
      OneMoreLook(s, call, n);
    }
  }

  lemma OneMoreLook(s: Shared, call: Call, n: nat)
    requires n > 0
    ensures LookAgain(s, LookAgain(s, call, n - 1), 1) == LookAgain(s, call, n)
  {
    var before := LookAgain(s, call, n - 1);
    assert LookAgain(s, before, 0) == before;
  }

  lemma {:induction false} LooksPast(s: Shared, places: Places, n: nat)
    requires TakenUpTo(s.store, places, n + 1)
    ensures LookAgain(s, Call(places, Trying(1), 0, 0), n) == Call(places, Trying(n + 1), 0, 0)
  {
    if n > 0 { LooksPast(s, places, n - 1); }
  }

  /** A call begins and looks until it has a free place. */
  function Finding(c: nat, places: Places, n: nat): seq<Access>
  {
    [Begin(c, places)] + Looks(c, n)
  }

  lemma LooksFind(s: Shared, places: Places, n: nat)
    requires s.makes == 0 && FirstMissing(s.store, places, n)
    ensures LookAgain(s, Call(places, Trying(1), 0, 0), n) == Call(places, Ready(places(n)), 0, 0)
  {
    LooksPast(s, places, n - 1);
  }

  lemma BeginsAndLooks(s: Shared, c: nat, places: Places, n: nat)
    requires c !in s.calls
    ensures Run(s, Finding(c, places, n)) == With(s, c, LookAgain(s, Call(places, Trying(1), 0, 0), n))
  {
    assert [] + [Begin(c, places)] == [Begin(c, places)];
    RunStep(s, [], Begin(c, places));
    RunConcat(s, [Begin(c, places)], Looks(c, n));
    LooksWith(s, c, Call(places, Trying(1), 0, 0), n);
  }

  lemma Finds(s: Shared, c: nat, places: Places, n: nat)
    requires c !in s.calls && s.makes == 0 && FirstMissing(s.store, places, n)
    ensures Run(s, Finding(c, places, n)) == With(s, c, Call(places, Ready(places(n)), 0, 0))
  {
    BeginsAndLooks(s, c, places, n);
    LooksFind(s, places, n);
  }

  /** Both find their place before either makes its directory. */
  function Crossing(a: Places, b: Places, m: nat, n: nat, copy: Copy): seq<Access>
  {
    Finding(0, a, m) + Finding(1, b, n) + [Make(0, copy)] + [Make(1, copy)]
  }

  lemma {:induction false} LooksAre(c: nat, n: nat)
    ensures forall i :: 0 <= i < |Looks(c, n)| ==> Looks(c, n)[i] == Look(c)
  {
    if n > 0 { LooksAre(c, n - 1); }
  }

  lemma CrossingOnly(a: Places, b: Places, m: nat, n: nat, copy: Copy)
    ensures Only(Crossing(a, b, m, n, copy), a, b)
  {
    LooksAre(0, m);
    LooksAre(1, n);
    assert Only(Finding(0, a, m), a, b) && Only(Finding(1, b, n), a, b);
    assert Only(Finding(0, a, m) + Finding(1, b, n), a, b);
  }

  lemma CrossingShares(store: Store, a: Places, b: Places, m: nat, n: nat, copy: Copy)
    requires FirstMissing(store, a, m) && FirstMissing(store, b, n) && a(m) == b(n) && copy.complete && copy.written
    ensures Share(Run(Alone(store), Crossing(a, b, m, n, copy)))
  {
    var s0, first, both := Alone(store), Finding(0, a, m), Finding(0, a, m) + Finding(1, b, n);
    Finds(s0, 0, a, m);
    Finds(Run(s0, first), 1, b, n);
    RunConcat(s0, first, Finding(1, b, n));
    RunStep(s0, both, Make(0, copy));
    RunStep(s0, both + [Make(0, copy)], Make(1, copy));
  }

  // ----- Which captures can share -----

  /** Some interleaving of the two captures makes both succeed in one directory. */
  ghost predicate CanShare(store: Store, a: Places, b: Places)
  {
    exists acts :: Only(acts, a, b) && Share(Run(Alone(store), acts))
  }

  lemma CanShareExactly(store: Store, a: Places, b: Places, m: nat, n: nat)
    requires TakenUpTo(store, a, m) && store.Stat(a(m)) != Found
    requires TakenUpTo(store, b, n) && store.Stat(b(n)) != Found
    ensures CanShare(store, a, b) <==> store.Stat(a(m)) == Missing && a(m) == b(n)
  {
    if CanShare(store, a, b) {
      var acts :| Only(acts, a, b) && Share(Run(Alone(store), acts));
      var s := Run(Alone(store), acts);
      PairedAlways(store, acts, a, b);
      SharersLookedFirst(store, s, a, b);
      assert Tracked(store, s.calls[0], s.makes) && Tracked(store, s.calls[1], s.makes);
      FirstPlaceUnique(store, a, m, s.calls[0].phase.dir);
      FirstPlaceUnique(store, b, n, s.calls[1].phase.dir);
    }
    if store.Stat(a(m)) == Missing && a(m) == b(n) {
      var copy := Copy(Store({}, {}), true, true);
      CrossingOnly(a, b, m, n, copy);
      CrossingShares(store, a, b, m, n, copy);
    }
  }

  /**
   * Two captures with nobody else about can end up in one directory if and only if the first free candidates of
   * their contexts are one place, and a directory can be made there.
   */
  lemma SharingExactly(base: Path, store: Store, a: RunContext, b: RunContext, m: nat, n: nat)
    requires FirstFree(store, base, a.KeyBase(), m) && FirstFree(store, base, b.KeyBase(), n)
    ensures CanShare(store, PlacesOf(base, a), PlacesOf(base, b)) <==>
      && store.Stat(Locate(base, Candidate(a.KeyBase(), m))) == Missing
      && Locate(base, Candidate(a.KeyBase(), m)) == Locate(base, Candidate(b.KeyBase(), n))
  {
    CanShareExactly(store, PlacesOf(base, a), PlacesOf(base, b), m, n);
  }
}
