/** The store of captured test runs: fresh keys that never clobber, and retention per rung and environment. */
module Artefacts {
  import opened Text
  import opened Decimal
  import opened Ordering
  import opened RunKeys

  // ----- The file system -----

  datatype Stat = Missing | Found | Broken

  datatype Store = Store(dirs: set<Path>, files: set<Path>)
  {
    predicate Has(p: Path)
    {
      p in dirs || p in files
    }

    /** Looking up a path below a file is an error, not an absence. */
    function Stat(p: Path): Stat
    {
      if Has(p) then Found
      else if exists i :: 0 <= i < |p| && p[..i] in files then Broken
      else Missing
    }

    /** Everything at or below p is gone. */
    function Without(p: Path): Store
    {
      Store(set d | d in dirs && !(p <= d), set f | f in files && !(p <= f))
    }

    /** The directories holding a manifest, of those found by walking from g. */
    function Runs(g: Path): set<Path>
    {
      set f | f in files && g <= f && f != [] && f[|f| - 1] == MANIFEST :: f[..|f| - 1]
    }
  }

  predicate Grows(s: Store, t: Store)
  {
    s.dirs <= t.dirs && s.files <= t.files
  }

  // ----- The search for a fresh key -----

  /** The directories of the suffixed candidates before the n-th. */
  ghost function Tried(base: Path, key: Path, n: nat): set<Path>
  {
    set m | 2 <= m < n :: Locate(base, Candidate(key, m))
  }

  lemma NotTried(base: Path, key: Path, n: nat)
    requires n >= 2
    ensures var dir := Locate(base, Candidate(key, n));
      dir !in Tried(base, key, n) && Tried(base, key, n + 1) == Tried(base, key, n) + {dir}
  {
    forall m | 2 <= m < n ensures Locate(base, Candidate(key, m)) != Locate(base, Candidate(key, n)) {
      CandidatesDiffer(base, key, m, n);
    }
  }

  /** n is the first candidate that is not there. */
  predicate FirstFree(s: Store, base: Path, key: Path, n: nat)
  {
    && n >= 1 && s.Stat(Locate(base, Candidate(key, n))) != Found
    && forall m :: 1 <= m < n ==> s.Stat(Locate(base, Candidate(key, m))) == Found
  }

  /** What a capture adds besides its own directory and manifest. */
  datatype Copy = Copy(added: Store, complete: bool, written: bool)

  /** Making the directories of a path does not mind if they are there. */
  function Filled(s: Store, dir: Path, copy: Copy): Store
  {
    Store(s.dirs + (set i | 0 <= i <= |dir| :: dir[..i]) + copy.added.dirs,
          s.files + copy.added.files + if copy.complete && copy.written then {dir + [MANIFEST]} else {})
  }

  /** The store after an attempt to capture into dir. */
  function Captured(s: Store, dir: Path, copy: Copy): Store
  {
    if s.Stat(dir) != Missing then s else Filled(s, dir, copy)
  }

  class Artefact {
    const base: Path
    var store: Store

    /** The search ends on every store. */
    method UniqueRunDir(key: Path) returns (r: Option<Path>, n: nat)
      ensures FirstFree(store, base, key, n)
      ensures r == if store.Stat(Locate(base, Candidate(key, n))) == Missing then Some(Candidate(key, n)) else None
    {
      ghost var there := store.dirs + store.files;
      ghost var tried: set<Path> := {};
      n := 1;
      var dir := Locate(base, Candidate(key, n));
      while store.Stat(dir) == Found
        invariant n >= 1 && dir == Locate(base, Candidate(key, n))
        invariant forall m :: 1 <= m < n ==> store.Stat(Locate(base, Candidate(key, m))) == Found
        invariant tried == Tried(base, key, n) && tried <= there
        decreases there - tried, if n == 1 then 1 else 0
      {
        if n > 1 {
          NotTried(base, key, n);
          tried := tried + {dir};
        }
        n := n + 1;
        dir := Locate(base, Candidate(key, n));
      }
      r := if store.Stat(dir) == Missing then Some(Candidate(key, n)) else None;
    }

    method Capture(rc: RunContext, copy: Copy) returns (r: Option<Path>)
      modifies this
      ensures CaptureStep(base, old(store), rc, r, store)
      ensures exists n: nat :: FirstFree(old(store), base, rc.KeyBase(), n)
                            && store == Captured(old(store), Locate(base, Candidate(rc.KeyBase(), n)), copy)
    {
      var key, n := UniqueRunDir(rc.KeyBase());
      if key.None? {
        return None;
      }
      var dir := Locate(base, key.value);
      store := Store(store.dirs + set i | 0 <= i <= |dir| :: dir[..i], store.files);
      assert dir[..|dir|] == dir;
      store := Store(store.dirs + copy.added.dirs, store.files + copy.added.files);
      if !copy.complete || !copy.written {
        return None;
      }
      store := store.(files := store.files + {dir + [MANIFEST]});
      r := key;
    }

    /** The run directories from oldest to newest; equal stamps in any order. */
    method SortRuns(runs: set<Path>) returns (order: seq<Path>)
      ensures Sorted(base, order) && Distinct(order) && forall r :: r in order <==> r in runs
    {
      order := [];
      var rest := runs;
      while rest != {}
        invariant rest <= runs && Sorted(base, order) && Distinct(order)
        invariant forall r :: r in order <==> r in runs - rest
        decreases |rest|
      {
        ghost var member := SetHasMember(rest);
        var r :| r in rest;
        rest := rest - {r};
        order := InsertRun(base, order, r);
      }
    }

    method RemoveEach(victims: seq<Path>) returns (removed: set<Path>)
      modifies this
      ensures store == RemoveAll(old(store), removed) && forall v :: v in removed <==> v in victims
    {
      removed := {};
      for i := 0 to |victims|
        invariant forall v :: v in removed <==> v in victims[..i]
        invariant store == RemoveAll(old(store), removed)
      {
        RemoveOneMore(old(store), removed, victims[i]);
        assert victims[..i + 1] == victims[..i] + [victims[i]];
        store := store.Without(victims[i]);
        removed := removed + {victims[i]};
      }
      assert victims[..|victims|] == victims;
    }

    method Prune(rung: string, env: string, keep: int) returns (removed: set<Path>)
      modifies this
      ensures PruneStep(base, old(store), GroupLocation(base, rung, env), keep, removed, store)
    {
      removed := {};
      if keep <= 0 {
        return;
      }
      var runs := store.Runs(GroupLocation(base, rung, env));
      var order := SortRuns(runs);
      SameSize(order, runs);
      if |order| <= keep {
        return;
      }
      removed := RemoveEach(order[..|order| - keep]);
      OldestFirst(base, order, runs, |order| - keep, removed);
    }
  }

  /** A capture only adds; when it answers with a key, nothing was there before and its manifest is there now. */
  ghost predicate CaptureStep(base: Path, s: Store, rc: RunContext, r: Option<Path>, t: Store)
  {
    && Grows(s, t)
    && (r.Some? ==>
      && (exists n: nat :: FirstFree(s, base, rc.KeyBase(), n) && r.value == Candidate(rc.KeyBase(), n))
      && !s.Has(Locate(base, r.value))
      && Locate(base, r.value) in t.dirs && Locate(base, r.value) + [MANIFEST] in t.files)
  }

  ghost predicate Captures(base: Path, states: seq<Store>, contexts: seq<RunContext>, keys: seq<Option<Path>>)
  {
    && |states| == |contexts| + 1 && |keys| == |contexts|
    && forall i :: 0 <= i < |contexts| ==> CaptureStep(base, states[i], contexts[i], keys[i], states[i + 1])
  }

  lemma {:induction false} StoreGrows(base: Path, states: seq<Store>, contexts: seq<RunContext>,
                                      keys: seq<Option<Path>>, i: nat, j: nat)
    requires Captures(base, states, contexts, keys) && i <= j < |states|
    ensures Grows(states[i], states[j])
    decreases j
  {
    if i < j { StoreGrows(base, states, contexts, keys, i, j - 1); }
  }

  /** A captured key is not free in any later state. */
  lemma CaptureStays(base: Path, states: seq<Store>, contexts: seq<RunContext>,
                     keys: seq<Option<Path>>, i: nat, j: nat)
    requires Captures(base, states, contexts, keys) && i < j < |states| && keys[i].Some?
    ensures states[j].Has(Locate(base, keys[i].value)) && Locate(base, keys[i].value) + [MANIFEST] in states[j].files
  {
    assert CaptureStep(base, states[i], contexts[i], keys[i], states[i + 1]);
    StoreGrows(base, states, contexts, keys, i + 1, j);
  }

  /** Captures never share a key, whatever they captured and whether or not others failed in between. */
  lemma CapturesAreDistinct(base: Path, states: seq<Store>, contexts: seq<RunContext>,
                            keys: seq<Option<Path>>, i: nat, j: nat)
    requires Captures(base, states, contexts, keys) && i < j < |keys| && keys[i].Some? && keys[j].Some?
    ensures keys[i] != keys[j] && Locate(base, keys[i].value) != Locate(base, keys[j].value)
  {
    CaptureStays(base, states, contexts, keys, i, j);
    assert CaptureStep(base, states[j], contexts[j], keys[j], states[j + 1]);
  }

  /** A capture into a free place adds the place with all above it, the copies, and the manifest if all went well. */
  lemma CapturedExactly(s: Store, dir: Path, copy: Copy)
    requires s.Stat(dir) == Missing
    ensures forall d :: d in Captured(s, dir, copy).dirs <==> d in s.dirs || d in copy.added.dirs || d <= dir
    ensures forall f :: f in Captured(s, dir, copy).files <==>
      f in s.files || f in copy.added.files || (copy.complete && copy.written && f == dir + ["run.json"])
  {
    var t := Captured(s, dir, copy);
    forall d: Path | d <= dir ensures d in t.dirs { assert d == dir[..|d|]; }
  }

  /** A look-up finds what is there, and fails only below a file. */
  lemma StatExactly(s: Store, p: Path)
    ensures s.Stat(p) == Found <==> p in s.dirs || p in s.files
    ensures s.Stat(p) == Broken <==> p !in s.dirs && p !in s.files && exists f :: f in s.files && f < p
  {
    if f :| f in s.files && f < p { assert f == p[..|f|]; }
    if i :| 0 <= i < |p| && p[..i] in s.files { assert p[..i] < p; }
  }

  // ----- Retention -----

  /** The last segment of the key that names a directory. */
  function Stamp(base: Path, dir: Path): string
  {
    if dir == base then "." else if dir <= base then ".." else dir[|dir| - 1]
  }

  /** What runs are ranked by: for plain names, the run stamp with the suffix that made the key free. */
  lemma StampOfRun(base: Path, rc: RunContext, n: nat)
    requires PlainPath(base) && Plain(rc.R()) && Plain(rc.E()) && Plain(rc.C()) && Plain(rc.T())
    ensures Stamp(base, Locate(base, Candidate(rc.KeyBase(), n))) == if n <= 1 then rc.T() else rc.T() + "-" + Itoa(n)
  {
    PlainRunLocation(base, rc, n);
  }

  predicate Sorted(base: Path, order: seq<Path>)
  {
    forall i, j :: 0 <= i < j < |order| ==> !Less(Stamp(base, order[j]), Stamp(base, order[i]))
  }

  predicate Distinct(order: seq<Path>)
  {
    forall i, j :: 0 <= i < j < |order| ==> order[i] != order[j]
  }

  lemma NotLessTransitive(a: string, b: string, c: string)
    requires !Less(b, a) && !Less(c, b)
    ensures !Less(c, a)
  {
    if Less(c, a) {
      if b != c { LessTotal(b, c); LessTransitive(b, c, a); }
    }
  }

  function InsertRun(base: Path, order: seq<Path>, r: Path): (now: seq<Path>)
    requires Sorted(base, order) && Distinct(order) && r !in order
    ensures Sorted(base, now) && Distinct(now) && forall x :: x in now <==> x in order || x == r
  {
    if order == [] then [r]
    else
      var n := |order| - 1;
      if Less(Stamp(base, r), Stamp(base, order[n])) then
        var rest := InsertRun(base, order[..n], r);
        InsertedInside(base, order, r, rest);
        rest + [order[n]]
      else
        InsertedLast(base, order, r);
        order + [r]
  }

  lemma InsertedInside(base: Path, order: seq<Path>, r: Path, rest: seq<Path>)
    requires order != [] && Sorted(base, order) && Distinct(order) && r !in order
    requires Less(Stamp(base, r), Stamp(base, order[|order| - 1]))
    requires Sorted(base, rest) && Distinct(rest) && forall x :: x in rest <==> x in order[..|order| - 1] || x == r
    ensures Sorted(base, rest + [order[|order| - 1]]) && Distinct(rest + [order[|order| - 1]])
  {
    var n := |order| - 1;
    LessAsymmetric(Stamp(base, r), Stamp(base, order[n]));
    forall i | 0 <= i < |rest| ensures !Less(Stamp(base, order[n]), Stamp(base, rest[i])) && rest[i] != order[n] {
      assert rest[i] in rest;
    }
  }

  lemma InsertedLast(base: Path, order: seq<Path>, r: Path)
    requires order != [] && Sorted(base, order) && Distinct(order) && r !in order
    requires !Less(Stamp(base, r), Stamp(base, order[|order| - 1]))
    ensures Sorted(base, order + [r]) && Distinct(order + [r])
  {
    forall i | 0 <= i < |order| ensures !Less(Stamp(base, r), Stamp(base, order[i])) {
      if i < |order| - 1 {
        NotLessTransitive(Stamp(base, order[i]), Stamp(base, order[|order| - 1]), Stamp(base, r));
      }
    }
  }

  lemma {:induction false} SameSize(order: seq<Path>, runs: set<Path>)
    requires Distinct(order) && forall r :: r in order <==> r in runs
    ensures |order| == |runs|
    decreases |order|
  {
    if order == [] {
      assert runs == {};
    } else {
      var init, last := order[..|order| - 1], order[|order| - 1];
      assert order == init + [last];
      SameSize(init, runs - {last});
    }
  }

  /** The store after removing every one of these directories. */
  function RemoveAll(s: Store, removed: set<Path>): Store
  {
    Store(set d | d in s.dirs && forall v :: v in removed ==> !(v <= d),
          set f | f in s.files && forall v :: v in removed ==> !(v <= f))
  }

  ghost predicate PruneStep(base: Path, s: Store, group: Path, keep: int, removed: set<Path>, t: Store)
  {
    var runs := s.Runs(group);
    if keep <= 0 || |runs| <= keep then removed == {} && t == s
    else
      && removed <= runs && |removed| == |runs| - keep && t == RemoveAll(s, removed)
      && forall v, r :: v in removed && r in runs - removed ==> !Less(Stamp(base, r), Stamp(base, v))
  }

  lemma TakeHolds(order: seq<Path>, k: nat)
    requires k <= |order|
    ensures forall j :: 0 <= j < k ==> order[j] in order[..k]
  {
    assert forall j :: 0 <= j < k ==> order[..k][j] == order[j];
  }

  lemma RemoveOneMore(s: Store, removed: set<Path>, v: Path)
    ensures RemoveAll(s, removed).Without(v) == RemoveAll(s, removed + {v})
  {
  }

  lemma OldestFirst(base: Path, order: seq<Path>, runs: set<Path>, k: nat, removed: set<Path>)
    requires Sorted(base, order) && Distinct(order) && (forall r :: r in order <==> r in runs)
    requires k <= |order| && forall v :: v in removed <==> v in order[..k]
    ensures removed <= runs && |removed| == k && |runs| == |order|
    ensures forall v, r :: v in removed && r in runs - removed ==> !Less(Stamp(base, r), Stamp(base, v))
  {
    SameSize(order[..k], removed);
    SameSize(order, runs);
    TakeHolds(order, k);
    forall v, r | v in removed && r in runs - removed ensures !Less(Stamp(base, r), Stamp(base, v)) {
      var i :| 0 <= i < k && order[..k][i] == v;
      var j :| 0 <= j < |order| && order[j] == r;
    }
  }

  /** Removing v takes the manifest of r with it. */
  predicate Takes(v: Path, r: Path)
  {
    v <= r + [MANIFEST]
  }

  /** The runs left are those that neither were removed nor lay inside a removed one. */
  lemma RunsLeft(s: Store, group: Path, removed: set<Path>, r: Path)
    ensures r in RemoveAll(s, removed).Runs(group) <==>
      r in s.Runs(group) && forall v :: v in removed ==> !Takes(v, r)
  {
    var f := r + [MANIFEST];
    assert f[..|f| - 1] == r;
    forall t: Store ensures r in t.Runs(group) <==> f in t.files && group <= f {
      if r in t.Runs(group) {
        var g :| g in t.files && group <= g && g != [] && g[|g| - 1] == MANIFEST && r == g[..|g| - 1];
        assert g == f;
      }
    }
  }

  function Min(a: int, b: int): int
  {
    if a < b then a else b
  }

  lemma SubsetSize(a: set<Path>, b: set<Path>)
    requires a <= b
    ensures |a| <= |b| && (|a| == |b| <==> a == b)
  {
    assert b == a + (b - a);
  }

  predicate NoneInside(removed: set<Path>, kept: set<Path>)
  {
    forall v, r :: v in removed && r in kept ==> !Takes(v, r)
  }

  lemma LeftOfKept(s: Store, group: Path, removed: set<Path>)
    requires removed <= s.Runs(group)
    ensures var left, kept := RemoveAll(s, removed).Runs(group), s.Runs(group) - removed;
      left <= kept && (left == kept <==> NoneInside(removed, kept))
  {
    var left, kept := RemoveAll(s, removed).Runs(group), s.Runs(group) - removed;
    forall r ensures r in left <==> r in kept && forall v :: v in removed ==> !Takes(v, r) {
      RunsLeft(s, group, removed, r);
      assert Takes(r, r);
    }
  }

  /** Retention leaves min(n, keep) runs exactly when no kept run lies inside a removed one, and never more. */
  lemma LeavesKeep(base: Path, s: Store, group: Path, keep: int, removed: set<Path>, t: Store)
    requires keep > 0 && PruneStep(base, s, group, keep, removed, t)
    ensures |t.Runs(group)| <= Min(|s.Runs(group)|, keep)
    ensures |t.Runs(group)| == Min(|s.Runs(group)|, keep) <==> NoneInside(removed, s.Runs(group) - removed)
  {
    if |s.Runs(group)| > keep {
      LeftOfKept(s, group, removed);
      SubsetSize(t.Runs(group), s.Runs(group) - removed);
    }
  }

  /**
   * A capture that fails leaves its directory behind. Retention counts it as a run exactly if what was copied
   * before the failure put a manifest there, as a source captured under that name does.
   */
  lemma FailedCaptureIsRun(s: Store, dir: Path, copy: Copy, group: Path)
    requires s.Stat(dir) == Missing && !(copy.complete && copy.written) && group <= dir
    ensures Captured(s, dir, copy).Has(dir)
    ensures dir in Captured(s, dir, copy).Runs(group) <==>
            dir + [MANIFEST] in s.files || dir + [MANIFEST] in copy.added.files
  {
    var t, m := Captured(s, dir, copy), dir + [MANIFEST];
    assert dir[..|dir|] == dir && m[..|m| - 1] == dir && m[|m| - 1] == MANIFEST && group <= m;
    if f :| f in t.files && group <= f && f != [] && f[|f| - 1] == MANIFEST && f[..|f| - 1] == dir {
      assert f == f[..|f| - 1] + [f[|f| - 1]];
    }
  }

  /** No run's manifest lies inside another run. */
  predicate NoneNested(runs: set<Path>)
  {
    forall v, r :: v in runs && r in runs && v != r ==> !Takes(v, r)
  }

  /** A group without nested runs is cut down to exactly min(n, keep). */
  lemma FlatGroupKeeps(base: Path, s: Store, group: Path, keep: int, removed: set<Path>, t: Store)
    requires keep > 0 && PruneStep(base, s, group, keep, removed, t) && NoneNested(s.Runs(group))
    ensures |t.Runs(group)| == Min(|s.Runs(group)|, keep)
  {
    LeavesKeep(base, s, group, keep, removed, t);
  }

  function Older(base: Path, runs: set<Path>, v: Path): set<Path>
  {
    set x | x in runs && Less(Stamp(base, x), Stamp(base, v))
  }

  function Newer(base: Path, runs: set<Path>, r: Path): set<Path>
  {
    set x | x in runs && Less(Stamp(base, r), Stamp(base, x))
  }

  /** Some order of equal stamps removes v and keeps r when k runs are removed. */
  predicate CanPart(base: Path, runs: set<Path>, k: int, v: Path, r: Path)
  {
    && !Less(Stamp(base, r), Stamp(base, v))
    && |Older(base, runs, v)| < k && |Newer(base, runs, r)| < |runs| - k
  }

  ghost predicate OldestOnly(base: Path, runs: set<Path>, removed: set<Path>)
  {
    removed <= runs && forall v, r :: v in removed && r in runs - removed ==> !Less(Stamp(base, r), Stamp(base, v))
  }

  lemma PartedCanPart(base: Path, runs: set<Path>, removed: set<Path>, v: Path, r: Path)
    requires OldestOnly(base, runs, removed) && v in removed && r in runs - removed
    ensures CanPart(base, runs, |removed|, v, r)
  {
    LessIrreflexive(Stamp(base, v));
    LessIrreflexive(Stamp(base, r));
    SubsetSize(Older(base, runs, v) + {v}, removed);
    SubsetSize(Newer(base, runs, r) + {r}, runs - removed);
    assert |runs - removed| == |runs| - |removed|;
  }

  lemma Oldest(base: Path, some: set<Path>) returns (x: Path)
    requires some != {}
    ensures x in some && forall y :: y in some ==> !Less(Stamp(base, y), Stamp(base, x))
    decreases |some|
  {
    var first := SetHasMember(some);
    var rest := some - {first};
    LessIrreflexive(Stamp(base, first));
    if rest == {} {
      assert some == {first};
      return first;
    }
    var z := Oldest(base, rest);
    x := if Less(Stamp(base, z), Stamp(base, first)) then z else first;
    if x == z { OldestOfBoth(base, first, z, z); }
    forall y | y in some ensures !Less(Stamp(base, y), Stamp(base, x)) {
      if y != first {
        assert y in rest;
        OldestOfBoth(base, first, z, y);
      }
    }
  }

  /** The smaller of two stamps is not above a third that is not below the second. */
  lemma OldestOfBoth(base: Path, first: Path, z: Path, y: Path)
    requires !Less(Stamp(base, y), Stamp(base, z))
    ensures !Less(Stamp(base, y), Stamp(base, if Less(Stamp(base, z), Stamp(base, first)) then z else first))
    ensures Less(Stamp(base, z), Stamp(base, first)) ==> !Less(Stamp(base, first), Stamp(base, z))
  {
    if Less(Stamp(base, z), Stamp(base, first)) {
      LessAsymmetric(Stamp(base, z), Stamp(base, first));
    } else {
      NotLessTransitive(Stamp(base, first), Stamp(base, z), Stamp(base, y));
    }
  }

  /** Any choice of oldest runs that avoids some newest ones can be filled up to k. */
  lemma {:induction false} FillUp(base: Path, runs: set<Path>, k: nat, low: set<Path>, high: set<Path>)
    returns (removed: set<Path>)
    requires OldestOnly(base, runs, low) && |low| <= k && high <= runs - low && |high| <= |runs| - k
    requires forall x, y :: x in high && y in runs && Less(Stamp(base, x), Stamp(base, y)) ==> y in high
    ensures OldestOnly(base, runs, removed) && |removed| == k && low <= removed && removed !! high
    decreases k - |low|
  {
    if |low| == k {
      removed := low;
    } else {
      var between := runs - low - high;
      assert runs == low + high + between && |runs| == |low| + |high| + |between|;
      var x := Oldest(base, between);
      assert x !in low;
      removed := FillUp(base, runs, k, low + {x}, high);
    }
  }

  lemma CanPartParts(base: Path, runs: set<Path>, k: nat, v: Path, r: Path) returns (removed: set<Path>)
    requires v in runs && r in runs && v != r && CanPart(base, runs, k, v, r)
    ensures OldestOnly(base, runs, removed) && |removed| == k && v in removed && r in runs - removed
  {
    var low, high := Older(base, runs, v) + {v}, Newer(base, runs, r) + {r};
    LessIrreflexive(Stamp(base, v));
    LessIrreflexive(Stamp(base, r));
    forall x, y | x in low && y in runs && Less(Stamp(base, y), Stamp(base, x)) ensures y in low {
      if x != v { LessTransitive(Stamp(base, y), Stamp(base, x), Stamp(base, v)); }
    }
    forall x, y | x in high && y in runs && Less(Stamp(base, x), Stamp(base, y)) ensures y in high {
      if x != r { LessTransitive(Stamp(base, r), Stamp(base, x), Stamp(base, y)); }
    }
    forall x | x in high ensures x !in low {
      if x in Newer(base, runs, r) && x in Older(base, runs, v) {
        LessTransitive(Stamp(base, r), Stamp(base, x), Stamp(base, v));
      }
    }
    removed := FillUp(base, runs, k, low, high);
  }

  /**
   * Whatever order equal stamps come in, retention leaves exactly `keep` of more runs if and only if no run inside
   * another one can outlive it.
   */
  lemma AlwaysLeavesKeep(base: Path, s: Store, group: Path, keep: int)
    requires keep > 0 && |s.Runs(group)| > keep
    ensures var runs := s.Runs(group);
      (forall removed, t :: PruneStep(base, s, group, keep, removed, t) ==> |t.Runs(group)| == keep) <==>
      forall v, r :: v in runs && r in runs && v != r && Takes(v, r) ==> !CanPart(base, runs, |runs| - keep, v, r)
  {
    var runs := s.Runs(group);
    if forall v, r :: v in runs && r in runs && v != r && Takes(v, r) ==> !CanPart(base, runs, |runs| - keep, v, r) {
      forall removed, t | PruneStep(base, s, group, keep, removed, t) ensures |t.Runs(group)| == keep {
        LeavesKeep(base, s, group, keep, removed, t);
        forall v, r | v in removed && r in runs - removed ensures !Takes(v, r) {
          PartedCanPart(base, runs, removed, v, r);
        }
      }
    } else {
      var v, r :| v in runs && r in runs && v != r && Takes(v, r) && CanPart(base, runs, |runs| - keep, v, r);
      var removed := CanPartParts(base, runs, |runs| - keep, v, r);
      var t := RemoveAll(s, removed);
      assert PruneStep(base, s, group, keep, removed, t);
      LeavesKeep(base, s, group, keep, removed, t);
    }
  }

  /** A directory is a run of the group exactly if it holds a manifest that lies in the group's directory. */
  lemma RunsExactly(s: Store, group: Path, r: Path)
    ensures r in s.Runs(group) <==> r + ["run.json"] in s.files && group <= r + ["run.json"]
  {
    var m := r + [MANIFEST];
    assert m[..|m| - 1] == r && m[|m| - 1] == MANIFEST;
    if f :| f in s.files && group <= f && f != [] && f[|f| - 1] == MANIFEST && f[..|f| - 1] == r {
      assert f == f[..|f| - 1] + [f[|f| - 1]];
    }
  }

  /** Retention removes everything at or below the removed runs, and nothing else. */
  lemma PruneRemovesExactly(base: Path, s: Store, group: Path, keep: int, removed: set<Path>, t: Store, p: Path)
    requires PruneStep(base, s, group, keep, removed, t)
    ensures p in t.dirs <==> p in s.dirs && forall v :: v in removed ==> !(v <= p)
    ensures p in t.files <==> p in s.files && forall v :: v in removed ==> !(v <= p)
  {
  }

  /** A captured tree that holds a manifest of its own: keeping one run loses both. */
  lemma NestedRunIsLost(base: Path, s: Store, group: Path, a: string, b: string, removed: set<Path>, t: Store)
    requires base <= group && Less(a, b)
    requires s.files == {group + [a, MANIFEST], group + [a, b, MANIFEST]}
    requires PruneStep(base, s, group, 1, removed, t)
    ensures |s.Runs(group)| == 2 && t.Runs(group) == {}
  {
    var outer, inner := group + [a], group + [a, b];
    var f, g := group + [a, MANIFEST], group + [a, b, MANIFEST];
    assert f[..|f| - 1] == outer && g[..|g| - 1] == inner;
    assert s.Runs(group) == {outer, inner};
    LessAsymmetric(a, b);
    SingleVictim(base, outer, inner, removed);
    assert outer <= f && outer <= g;
    assert t.files == {};
  }

  lemma SingleVictim(base: Path, outer: Path, inner: Path, removed: set<Path>)
    requires outer != inner && removed <= {outer, inner} && |removed| == 1
    requires Less(Stamp(base, outer), Stamp(base, inner))
    requires forall v, r :: v in removed && r in {outer, inner} - removed ==> !Less(Stamp(base, r), Stamp(base, v))
    ensures outer in removed
  {
    var one := {inner};
    if removed <= one { SubsetSize(removed, one); }
  }

  /** The same retention again removes nothing. */
  lemma PruneAgain(base: Path, s: Store, group: Path, keep: int, removed: set<Path>, t: Store,
                   again: set<Path>, u: Store)
    requires PruneStep(base, s, group, keep, removed, t) && PruneStep(base, t, group, keep, again, u)
    ensures again == {} && u == t
  {
    if keep > 0 { LeavesKeep(base, s, group, keep, removed, t); }
  }

  /** Nothing outside the group's directory is touched, unless that directory is itself a manifest. */
  lemma OutsideIsKept(base: Path, s: Store, group: Path, keep: int, removed: set<Path>, t: Store, p: Path)
    requires PruneStep(base, s, group, keep, removed, t) && group !in s.files && !(group <= p)
    ensures (p in t.dirs <==> p in s.dirs) && (p in t.files <==> p in s.files)
  {
    forall v | v in removed ensures !(v <= p) {
      var f :| f in s.files && group <= f && f != [] && v == f[..|f| - 1];
      assert |group| == |f| ==> group == f;
      assert group <= v;
    }
  }
}
