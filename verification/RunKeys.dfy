/** Where captured runs lie: keys, their cleaning, and which groups of runs are apart. */
module RunKeys {
  import opened Text
  import opened Decimal
  import opened Ordering

  type Path = seq<string>

  const PREFIX := "bdd"
  const MANIFEST := "run.json"

  // ----- Keys -----

  predicate KeyChar(c: char)
  {
    'a' <= c <= 'z' || 'A' <= c <= 'Z' || '0' <= c <= '9' || c == '.' || c == '_' || c == '-'
  }

  function Dashed(s: string): (r: string)
    ensures |r| == |s| && forall i :: 0 <= i < |r| ==> r[i] == (if KeyChar(s[i]) then s[i] else '-')
  {
    if s == "" then "" else [if KeyChar(s[0]) then s[0] else '-'] + Dashed(s[1..])
  }

  /** One segment of a key; never empty, but "." and ".." get through. */
  function Sanitize(s: string): (r: string)
    ensures r != "" && forall i :: 0 <= i < |r| ==> KeyChar(r[i])
  {
    var t := TrimSpace(s);
    if t == "" then "none" else Dashed(t)
  }

  /** Names that are safe already are kept, so sanitizing again changes nothing. */
  lemma SanitizeKeepsSafe(s: string)
    ensures s != "" && (forall i :: 0 <= i < |s| ==> KeyChar(s[i])) ==> Sanitize(s) == s
    ensures Sanitize(Sanitize(s)) == Sanitize(s)
  {
    SafeIsKept(Sanitize(s));
    if s != "" && forall i :: 0 <= i < |s| ==> KeyChar(s[i]) { SafeIsKept(s); }
  }

  lemma SafeIsKept(s: string)
    requires s != "" && forall i :: 0 <= i < |s| ==> KeyChar(s[i])
    ensures Sanitize(s) == s
  {
    assert KeyChar(s[0]) && KeyChar(s[|s| - 1]);
    TrimTight(s);
    assert forall i :: 0 <= i < |s| ==> Dashed(s)[i] == s[i];
  }

  predicate DashesOthers(s: string, r: string)
  {
    |r| == |s| && forall i :: 0 <= i < |s| ==>
      if 'a' <= s[i] <= 'z' || 'A' <= s[i] <= 'Z' || '0' <= s[i] <= '9' || s[i] in "._-" then r[i] == s[i] else r[i] == '-'
  }

  /** Trimming aside, each character is kept if it may stand in a key and becomes a dash if not; nothing becomes "none". */
  lemma SanitizeExactly(s: string)
    ensures TrimSpace(s) == "" ==> Sanitize(s) == "none"
    ensures TrimSpace(s) != "" ==> DashesOthers(TrimSpace(s), Sanitize(s))
  {
  }

  datatype RunContext = RunContext(rung: string, environment: string, commit: string, runstamp: string)
  {
    function Env(): string
    {
      if TrimSpace(environment) == "" then "none" else environment
    }

    /** The segments: the first two name the group. */
    function R(): string
    {
      Sanitize(rung)
    }

    function E(): string
    {
      Sanitize(Env())
    }

    function C(): string
    {
      Sanitize(commit)
    }

    function T(): string
    {
      Sanitize(runstamp)
    }

    function GroupKey(): Path
    {
      RelClean([PREFIX, R(), E()])
    }

    function KeyBase(): Path
    {
      RelClean(GroupKey() + [C(), T()])
    }
  }

  /** Lexical cleaning of a relative path; the empty one is ".". */
  function RelClean(segs: Path): Path
  {
    if segs == [] then []
    else
      var acc, seg := RelClean(segs[..|segs| - 1]), segs[|segs| - 1];
      if seg == "" || seg == "." then acc
      else if seg != ".." then acc + [seg]
      else if acc != [] && acc[|acc| - 1] != ".." then acc[..|acc| - 1]
      else acc + [seg]
  }

  /** One more segment of an absolute path; the root is its own parent. */
  function Enter(acc: Path, seg: string): Path
  {
    if seg == "" || seg == "." then acc
    else if seg != ".." then acc + [seg]
    else if acc != [] then acc[..|acc| - 1]
    else acc
  }

  /** Lexical cleaning of an absolute path. */
  function AbsClean(segs: Path): Path
  {
    if segs == [] then [] else Enter(AbsClean(segs[..|segs| - 1]), segs[|segs| - 1])
  }

  function GroupLocation(base: Path, rung: string, env: string): Path
  {
    Locate(base, RunContext(rung, env, "", "").GroupKey())
  }

  /** Where a key lies under the artefact directory. */
  function Locate(base: Path, key: Path): Path
  {
    AbsClean(base + key)
  }

  function LastOf(key: Path): string
  {
    if key == [] then "." else key[|key| - 1]
  }

  function AllButLast(key: Path): Path
  {
    if key == [] then [] else key[..|key| - 1]
  }

  /** The n-th key tried: the plain one, then -2, -3, ... on the last segment. */
  function Candidate(key: Path, n: nat): Path
  {
    if n <= 1 then key else AllButLast(key) + [LastOf(key) + "-" + Itoa(n)]
  }

  lemma CandidateLocation(base: Path, key: Path, n: nat)
    requires n >= 2
    ensures Locate(base, Candidate(key, n)) == AbsClean(base + AllButLast(key)) + [LastOf(key) + "-" + Itoa(n)]
  {
    var init, seg := AllButLast(key), LastOf(key) + "-" + Itoa(n);
    var all := base + init + [seg];
    assert base + (init + [seg]) == all && all[..|all| - 1] == base + init && all[|all| - 1] == seg;
    assert IsDigit(seg[|seg| - 1]);
  }

  lemma CandidatesDiffer(base: Path, key: Path, m: nat, n: nat)
    requires 2 <= m < n
    ensures Locate(base, Candidate(key, m)) != Locate(base, Candidate(key, n))
  {
    CandidateLocation(base, key, m);
    CandidateLocation(base, key, n);
    var p, a, b := LastOf(key) + "-", Itoa(m), Itoa(n);
    if p + a == p + b {
      assert (p + a)[|p|..] == a && (p + b)[|p|..] == b;
      ValueOfDigits(m);
      ValueOfDigits(n);
    }
    var x, y := Locate(base, Candidate(key, m)), Locate(base, Candidate(key, n));
    assert x[|x| - 1] == p + a && y[|y| - 1] == p + b;
  }

  // ----- Keys as directories -----

  lemma AbsPush(segs: Path, seg: string)
    ensures AbsClean(segs + [seg]) == Enter(AbsClean(segs), seg)
  {
    assert (segs + [seg])[..|segs|] == segs;
  }

  lemma {:induction false} RelSegments(segs: Path)
    ensures forall i :: 0 <= i < |RelClean(segs)| ==> RelClean(segs)[i] != "" && RelClean(segs)[i] != "."
  {
    if segs != [] { RelSegments(segs[..|segs| - 1]); }
  }

  lemma StagedPush(base: Path, acc: Path, seg: string)
    ensures AbsClean(base + (acc + [seg])) == Enter(AbsClean(base + acc), seg)
  {
    assert base + (acc + [seg]) == base + acc + [seg];
    AbsPush(base + acc, seg);
  }

  lemma StagedPop(base: Path, acc: Path)
    requires acc != [] && acc[|acc| - 1] != "" && acc[|acc| - 1] != "." && acc[|acc| - 1] != ".."
    ensures AbsClean(base + acc[..|acc| - 1]) == Enter(AbsClean(base + acc), "..")
  {
    assert acc == acc[..|acc| - 1] + [acc[|acc| - 1]];
    StagedPush(base, acc[..|acc| - 1], acc[|acc| - 1]);
  }

  lemma RelOneMore(segs: Path, seg: string)
    ensures var a, b := RelClean(segs), RelClean(segs + [seg]);
      b == if seg == "" || seg == "." then a
           else if seg == ".." && a != [] && a[|a| - 1] != ".." then a[..|a| - 1]
           else a + [seg]
  {
    assert (segs + [seg])[..|segs|] == segs && (segs + [seg])[|segs|] == seg;
  }

  lemma StagedOneMore(base: Path, init: Path, seg: string)
    requires AbsClean(base + RelClean(init)) == AbsClean(base + init)
    ensures AbsClean(base + RelClean(init + [seg])) == AbsClean(base + (init + [seg]))
  {
    var acc := RelClean(init);
    RelOneMore(init, seg);
    StagedPush(base, init, seg);
    if seg == ".." && acc != [] && acc[|acc| - 1] != ".." {
      RelSegments(init);
      StagedPop(base, acc);
    } else if seg != "" && seg != "." {
      StagedPush(base, acc, seg);
    }
  }

  /** Cleaning a key first does not change the directory that it names. */
  lemma {:induction false} StagedClean(base: Path, segs: Path)
    ensures AbsClean(base + RelClean(segs)) == AbsClean(base + segs)
  {
    if segs != [] {
      var init, seg := segs[..|segs| - 1], segs[|segs| - 1];
      StagedClean(base, init);
      StagedOneMore(base, init, seg);
      assert init + [seg] == segs;
    }
  }

  predicate Plain(seg: string)
  {
    seg != "" && seg != "." && seg != ".."
  }

  predicate PlainPath(p: Path)
  {
    forall i :: 0 <= i < |p| ==> Plain(p[i])
  }

  lemma {:induction false} AbsPlain(base: Path)
    requires PlainPath(base)
    ensures AbsClean(base) == base
  {
    if base != [] { AbsPlain(base[..|base| - 1]); }
  }

  lemma AbsPrefix(base: Path)
    requires PlainPath(base)
    ensures AbsClean(base + [PREFIX]) == base + [PREFIX]
  {
    AbsPlain(base + [PREFIX]);
  }

  lemma AbsPushTwice(segs: Path, r: string, e: string)
    ensures AbsClean(segs + [r] + [e]) == Enter(Enter(AbsClean(segs), r), e)
  {
    AbsPush(segs, r);
    AbsPush(segs + [r], e);
  }

  lemma Three(base: Path, r: string, e: string)
    requires PlainPath(base)
    ensures AbsClean(base + [PREFIX, r, e]) == Enter(Enter(base + [PREFIX], r), e)
  {
    AbsPrefix(base);
    AbsPushTwice(base + [PREFIX], r, e);
    assert base + [PREFIX] + [r] + [e] == base + [PREFIX, r, e];
  }

  /** The directory of four segments below the prefix. */
  function Four(base: Path, r: string, e: string, c: string, t: string): Path
  {
    Enter(Enter(Enter(Enter(base + [PREFIX], r), e), c), t)
  }

  lemma PushTwoOnto(base: Path, k: Path, c: string, t: string)
    ensures AbsClean(base + (k + [c, t])) == Enter(Enter(AbsClean(base + k), c), t)
  {
    AbsPushTwice(base + k, c, t);
    assert base + (k + [c, t]) == base + k + [c] + [t];
  }

  lemma LocatedSegments(base: Path, r: string, e: string, c: string, t: string)
    requires PlainPath(base)
    ensures var k := RelClean([PREFIX, r, e]);
      && Locate(base, k) == Enter(Enter(base + [PREFIX], r), e)
      && Locate(base, RelClean(k + [c, t])) == Four(base, r, e, c, t)
  {
    var k := RelClean([PREFIX, r, e]);
    StagedClean(base, [PREFIX, r, e]);
    Three(base, r, e);
    StagedClean(base, k + [c, t]);
    PushTwoOnto(base, k, c, t);
  }

  /** The directories of a group and of a run, segment by segment. */
  lemma Located(base: Path, rc: RunContext)
    requires PlainPath(base)
    ensures Locate(base, rc.GroupKey()) == Enter(Enter(base + [PREFIX], rc.R()), rc.E())
    ensures Locate(base, rc.KeyBase()) == Four(base, rc.R(), rc.E(), rc.C(), rc.T())
  {
    LocatedSegments(base, rc.R(), rc.E(), rc.C(), rc.T());
  }

  // ----- Which groups are apart -----

  /** The walk of the own group's directory meets the other run. */
  predicate Inside(base: Path, own: RunContext, other: RunContext)
  {
    Locate(base, own.GroupKey()) <= Locate(base, other.KeyBase())
  }

  function DropDots(segs: Path): Path
  {
    if segs == [] then [] else (if segs[0] == "." then [] else [segs[0]]) + DropDots(segs[1..])
  }

  /**
   * The names of a run that lies in the group of the plain names R and E: without any "..", the first two of
   * its segments that are not "." are R and E; with one "..", what it removes lets three plain segments do so.
   */
  predicate Meets(R: string, E: string, r: string, e: string, c: string, t: string)
  {
    if r != ".." && e != ".." && c != ".." && t != ".." then
      var p := DropDots([r, e, c, t]); |p| >= 2 && p[0] == R && p[1] == E
    else
      || (r == ".." && e == PREFIX && c == R && t == E)
      || (e == ".." && Plain(r) && c == R && t == E)
      || (c == ".." && r == R && Plain(e) && t == E)
      || (t == ".." && r == R && e == E && Plain(c))
  }

  predicate Names(r: string, e: string, c: string, t: string)
  {
    r != "" && e != "" && c != "" && t != ""
  }

  lemma {:induction false} EnterDots(acc: Path, segs: Path)
    requires forall i :: 0 <= i < |segs| ==> segs[i] != "" && segs[i] != ".."
    ensures EnterAll(acc, segs) == acc + DropDots(segs)
    decreases |segs|
  {
    if segs == [] {
      assert acc + [] == acc;
    } else if segs[0] == "." {
      EnterDots(acc, segs[1..]);
      assert DropDots(segs) == DropDots(segs[1..]);
    } else {
      EnterDots(acc + [segs[0]], segs[1..]);
      assert acc + [segs[0]] + DropDots(segs[1..]) == acc + ([segs[0]] + DropDots(segs[1..]));
    }
  }

  function EnterAll(acc: Path, segs: Path): Path
    decreases |segs|
  {
    if segs == [] then acc else EnterAll(Enter(acc, segs[0]), segs[1..])
  }

  lemma EnterFirst(acc: Path, x: string, rest: Path)
    ensures EnterAll(acc, [x] + rest) == EnterAll(Enter(acc, x), rest)
  {
    assert ([x] + rest)[1..] == rest;
  }

  lemma FourIsAll(base: Path, r: string, e: string, c: string, t: string)
    ensures Four(base, r, e, c, t) == EnterAll(base + [PREFIX], [r, e, c, t])
  {
    var g := base + [PREFIX];
    assert [r, e, c, t] == [r] + ([e] + ([c] + ([t] + [])));
    EnterFirst(g, r, [e] + ([c] + ([t] + [])));
    EnterFirst(Enter(g, r), e, [c] + ([t] + []));
    EnterFirst(Enter(Enter(g, r), e), c, [t] + []);
    EnterFirst(Enter(Enter(Enter(g, r), e), c), t, []);
  }

  lemma MeetsWithoutUps(base: Path, R: string, E: string, r: string, e: string, c: string, t: string)
    requires Names(r, e, c, t) && r != ".." && e != ".." && c != ".." && t != ".."
    ensures base + [PREFIX, R, E] <= Four(base, r, e, c, t) <==> Meets(R, E, r, e, c, t)
  {
    FourIsAll(base, r, e, c, t);
    EnterDots(base + [PREFIX], [r, e, c, t]);
    var p := DropDots([r, e, c, t]);
    PrefixOf(base + [PREFIX], p, R, E);
    assert base + [PREFIX, R, E] == base + [PREFIX] + [R, E];
  }

  lemma PrefixOf(head: Path, p: Path, R: string, E: string)
    ensures head + [R, E] <= head + p <==> |p| >= 2 && p[0] == R && p[1] == E
  {
    if head + [R, E] <= head + p {
      assert (head + p)[|head|] == (head + [R, E])[|head|] && (head + p)[|head| + 1] == (head + [R, E])[|head| + 1];
    }
  }

  function Ups(segs: Path): nat
  {
    if segs == [] then 0 else (if segs[0] == ".." then 1 else 0) + Ups(segs[1..])
  }

  function Plains(segs: Path): nat
  {
    if segs == [] then 0 else (if Plain(segs[0]) then 1 else 0) + Plains(segs[1..])
  }

  /** With as many ".." as that, too little is left below the group's directory. */
  lemma {:induction false} EnterLength(acc: Path, segs: Path)
    ensures |EnterAll(acc, segs)| <= |acc| + Plains(segs)
    ensures |acc| >= Ups(segs) ==> |EnterAll(acc, segs)| == |acc| + Plains(segs) - Ups(segs)
    ensures Ups(segs) > 0 && acc != [] ==> |EnterAll(acc, segs)| < |acc| + Plains(segs)
    decreases |segs|
  {
    if segs != [] { EnterLength(Enter(acc, segs[0]), segs[1..]); }
  }

  lemma CountFirst(x: string, rest: Path)
    ensures Plains([x] + rest) == (if Plain(x) then 1 else 0) + Plains(rest)
    ensures Ups([x] + rest) == (if x == ".." then 1 else 0) + Ups(rest)
  {
    assert ([x] + rest)[1..] == rest;
  }

  lemma CountFour(r: string, e: string, c: string, t: string)
    ensures Plains([r, e, c, t]) ==
      (if Plain(r) then 1 else 0) + (if Plain(e) then 1 else 0) + (if Plain(c) then 1 else 0) + (if Plain(t) then 1 else 0)
    ensures Ups([r, e, c, t]) ==
      (if r == ".." then 1 else 0) + (if e == ".." then 1 else 0) + (if c == ".." then 1 else 0) + (if t == ".." then 1 else 0)
  {
    assert [r, e, c, t] == [r] + ([e] + ([c] + ([t] + [])));
    CountFirst(r, [e] + ([c] + ([t] + [])));
    CountFirst(e, [c] + ([t] + []));
    CountFirst(c, [t] + []);
    CountFirst(t, []);
  }

  lemma MeetsOneUp(base: Path, R: string, E: string, r: string, e: string, c: string, t: string)
    requires Plain(R) && Plain(E) && Names(r, e, c, t)
    requires Ups([r, e, c, t]) == 1 && Plains([r, e, c, t]) == 3
    ensures base + [PREFIX, R, E] <= Four(base, r, e, c, t) <==> Meets(R, E, r, e, c, t)
  {
    CountFour(r, e, c, t);
    var g := base + [PREFIX];
    assert base + [PREFIX, R, E] == g + [R, E] == base + [PREFIX] + [R] + [E];
    if r == ".." {
      assert g[..|g| - 1] == base;
      assert Four(base, r, e, c, t) == base + [e, c, t];
      assert base + [PREFIX, R, E] <= base + [e, c, t] <==> [PREFIX, R, E] == [e, c, t] by { SameTail(base, [PREFIX, R, E], [e, c, t]); }
    } else if e == ".." {
      assert (g + [r])[..|g|] == g;
      assert Four(base, r, e, c, t) == g + [c, t];
      PrefixOf(g, [c, t], R, E);
    } else if c == ".." {
      assert (g + [r] + [e])[..|g| + 1] == g + [r];
      assert Four(base, r, e, c, t) == g + [r, t];
      PrefixOf(g, [r, t], R, E);
    } else {
      assert (g + [r] + [e] + [c])[..|g| + 2] == g + [r, e];
      assert Four(base, r, e, c, t) == g + [r, e];
      PrefixOf(g, [r, e], R, E);
    }
  }

  lemma SameTail(head: Path, a: Path, b: Path)
    requires |a| == |b|
    ensures head + a <= head + b <==> a == b
  {
    if head + a <= head + b {
      assert head + a == head + b;
      assert a == (head + a)[|head|..] == (head + b)[|head|..] == b;
    }
  }

  lemma FourMeets(base: Path, R: string, E: string, r: string, e: string, c: string, t: string)
    requires Plain(R) && Plain(E) && Names(r, e, c, t)
    ensures base + [PREFIX, R, E] <= Four(base, r, e, c, t) <==> Meets(R, E, r, e, c, t)
  {
    CountFour(r, e, c, t);
    if Ups([r, e, c, t]) == 0 {
      MeetsWithoutUps(base, R, E, r, e, c, t);
    } else if Ups([r, e, c, t]) == 1 && Plains([r, e, c, t]) == 3 {
      MeetsOneUp(base, R, E, r, e, c, t);
    } else {
      FourIsAll(base, r, e, c, t);
      EnterLength(base + [PREFIX], [r, e, c, t]);
      assert |base + [PREFIX, R, E]| == |base| + 3;
    }
  }

  lemma SanitizedNames(rc: RunContext)
    ensures Names(rc.R(), rc.E(), rc.C(), rc.T())
  {
  }

  /** Over every other run that got its plain key, dots included: it lies in a group of two plain names if its names meet it. */
  lemma InsideByNames(base: Path, own: RunContext, other: RunContext)
    requires PlainPath(base) && Plain(own.R()) && Plain(own.E())
    ensures Inside(base, own, other) <==> Meets(own.R(), own.E(), other.R(), other.E(), other.C(), other.T())
  {
    Located(base, own);
    Located(base, other);
    SanitizedNames(other);
    GroupOfPlain(base, own.R(), own.E());
    FourMeets(base, own.R(), own.E(), other.R(), other.E(), other.C(), other.T());
  }

  lemma GroupOfPlain(base: Path, r: string, e: string)
    requires Plain(r) && Plain(e)
    ensures Enter(Enter(base + [PREFIX], r), e) == base + [PREFIX, r, e]
  {
  }

  function Suffixed(t: string, n: nat): string
  {
    if n <= 1 then t else t + "-" + Itoa(n)
  }

  lemma PlainSuffix(t: string, n: nat)
    requires Plain(t)
    ensures Plain(Suffixed(t, n))
  {
    if n >= 2 { assert Suffixed(t, n)[|t|] == '-'; }
  }

  lemma PlainLocation(base: Path, r: string, e: string, c: string, t: string, n: nat)
    requires PlainPath(base) && Plain(r) && Plain(e) && Plain(c) && Plain(t)
    ensures Locate(base, Candidate([PREFIX, r, e, c, t], n)) == base + [PREFIX, r, e, c, Suffixed(t, n)]
  {
    PlainSuffix(t, n);
    assert [PREFIX, r, e, c, t][..4] == [PREFIX, r, e, c];
    assert Candidate([PREFIX, r, e, c, t], n) == [PREFIX, r, e, c, Suffixed(t, n)];
    AbsPlain(base + [PREFIX, r, e, c, Suffixed(t, n)]);
  }

  lemma PlainSegmentsApart(base: Path, R: string, E: string, r: string, e: string, rest: Path)
    requires Plain(R) && Plain(E)
    ensures Enter(Enter(base + [PREFIX], R), E) <= base + ([PREFIX, r, e] + rest) <==> R == r && E == e
  {
    var g := base + [PREFIX];
    assert base + ([PREFIX, r, e] + rest) == g + ([r, e] + rest);
    GroupOfPlain(base, R, E);
    assert base + [PREFIX, R, E] == g + [R, E];
    PrefixOf(g, [r, e] + rest, R, E);
  }

  lemma PlainKey(r: string, e: string, c: string, t: string)
    requires Plain(r) && Plain(e) && Plain(c) && Plain(t)
    ensures RelClean(RelClean([PREFIX, r, e]) + [c, t]) == [PREFIX, r, e, c, t]
  {
    RelPlain([PREFIX, r, e]);
    assert [PREFIX, r, e] + [c, t] == [PREFIX, r, e, c, t];
    RelPlain([PREFIX, r, e, c, t]);
  }

  lemma PlainRunLocation(base: Path, rc: RunContext, n: nat)
    requires PlainPath(base) && Plain(rc.R()) && Plain(rc.E()) && Plain(rc.C()) && Plain(rc.T())
    ensures Locate(base, Candidate(rc.KeyBase(), n))
         == base + ([PREFIX, rc.R(), rc.E()] + [rc.C(), Suffixed(rc.T(), n)])
  {
    PlainKey(rc.R(), rc.E(), rc.C(), rc.T());
    PlainLocation(base, rc.R(), rc.E(), rc.C(), rc.T(), n);
  }

  /** With plain names all round, a run and every key tried for it lie in its own group and in no other plain one. */
  lemma PlainRunsApart(base: Path, own: RunContext, other: RunContext, n: nat)
    requires PlainPath(base) && Plain(own.R()) && Plain(own.E())
    requires Plain(other.R()) && Plain(other.E()) && Plain(other.C()) && Plain(other.T())
    ensures Locate(base, own.GroupKey()) <= Locate(base, Candidate(other.KeyBase(), n))
       <==> own.R() == other.R() && own.E() == other.E()
  {
    Located(base, own);
    PlainRunLocation(base, other, n);
    PlainSegmentsApart(base, own.R(), own.E(), other.R(), other.E(), [other.C(), Suffixed(other.T(), n)]);
  }

  lemma {:induction false} RelPlain(segs: Path)
    requires PlainPath(segs)
    ensures RelClean(segs) == segs
  {
    if segs != [] { RelPlain(segs[..|segs| - 1]); }
  }

  lemma DottedMeets(R: string, E: string, t: string)
    requires Plain(R) && Plain(E) && t != "" && t != ".."
    ensures Meets(R, E, ".", R, E, t)
  {
    assert [".", R, E, t][1..] == [R, E, t] && [R, E, t][1..] == [E, t] && [E, t][1..] == [t];
    assert DropDots([R, E, t]) == [R] + DropDots([E, t]) && DropDots([E, t]) == [E] + DropDots([t]);
  }

  lemma DottedKeys(R: string, E: string)
    requires Plain(R) && Plain(E)
    ensures RelClean([PREFIX, R, E]) == [PREFIX, R, E] && RelClean([PREFIX, ".", R]) == [PREFIX, R]
  {
    RelPlain([PREFIX, R, E]);
    RelPlain([PREFIX, R]);
    assert [PREFIX, ".", R][..2] == [PREFIX, "."] && [PREFIX, "."][..1] == [PREFIX];
    RelPlain([PREFIX]);
  }

  lemma SafeSegments(own: RunContext, runstamp: string)
    ensures var other := RunContext(".", own.R(), own.E(), runstamp);
      other.R() == "." && other.E() == own.R() && other.C() == own.E()
  {
    SafeIsKept(".");
    SanitizeKeepsSafe(own.rung);
    SanitizeKeepsSafe(own.Env());
    SafeTrims(own.R());
  }

  /** Every group of plain names has a neighbour of another group inside it: a rung named ".". */
  lemma DottedNeighbour(base: Path, own: RunContext, runstamp: string)
    requires PlainPath(base) && Plain(own.R()) && Plain(own.E()) && Sanitize(runstamp) != ".."
    ensures var other := RunContext(".", own.R(), own.E(), runstamp);
      Inside(base, own, other) && other.GroupKey() != own.GroupKey()
  {
    var other := RunContext(".", own.R(), own.E(), runstamp);
    SafeSegments(own, runstamp);
    DottedMeets(own.R(), own.E(), other.T());
    InsideByNames(base, own, other);
    DottedKeys(own.R(), own.E());
  }

  lemma SafeTrims(s: string)
    requires s != "" && forall i :: 0 <= i < |s| ==> KeyChar(s[i])
    ensures TrimSpace(s) == s
  {
    assert KeyChar(s[0]) && KeyChar(s[|s| - 1]);
    TrimTight(s);
  }

  /** The walk of one group meets none of the runs of another whose names are all plain. */
  ghost predicate Apart(base: Path, rung: string, env: string)
  {
    forall r, e, c, t :: Plain(r) && Plain(e) && Plain(c) && Plain(t) && (r != rung || e != env)
      ==> !(Enter(Enter(base + [PREFIX], rung), env) <= base + [PREFIX, r, e, c, t])
  }

  lemma PlainGroupApart(base: Path, rung: string, env: string)
    requires Plain(rung) && Plain(env)
    ensures Apart(base, rung, env)
  {
    var g := Enter(Enter(base + [PREFIX], rung), env);
    assert g == base + [PREFIX] + [rung, env];
    forall r, e, c, t | Plain(r) && Plain(e) && Plain(c) && Plain(t) && (r != rung || e != env)
      ensures !(g <= base + [PREFIX, r, e, c, t])
    {
      assert base + [PREFIX, r, e, c, t] == base + [PREFIX] + [r, e, c, t];
      PrefixOf(base + [PREFIX], [r, e, c, t], rung, env);
    }
  }

  lemma RaisedGroupApart(base: Path, env: string)
    requires Plain(env) && env != PREFIX
    ensures Apart(base, "..", env)
  {
    var g := Enter(Enter(base + [PREFIX], ".."), env);
    assert (base + [PREFIX])[..|base|] == base && g == base + [env];
    forall r, e, c, t ensures !(g <= base + [PREFIX, r, e, c, t]) {
      assert (base + [PREFIX, r, e, c, t])[|base|] == PREFIX && g[|base|] == env;
    }
  }

  lemma RunBelow(base: Path, g: Path, r: string, e: string)
    requires g <= base + [PREFIX] || g == base + [PREFIX, r]
    ensures g <= base + [PREFIX, r, e, "x", "x"]
  {
    var run := base + [PREFIX, r, e, "x", "x"];
    assert run[..|base| + 1] == base + [PREFIX] && run[..|base| + 2] == base + [PREFIX, r];
    if g <= base + [PREFIX] { assert g == (base + [PREFIX])[..|g|] == run[..|base| + 1][..|g|] == run[..|g|]; }
  }

  /** A dotted group's directory is one of these, above the directory of some plain run. */
  lemma DottedGroup(base: Path, rung: string, env: string)
    requires rung != "" && env != "" && !(Plain(rung) && Plain(env)) && !(rung == ".." && Plain(env) && env != PREFIX)
    ensures var g := Enter(Enter(base + [PREFIX], rung), env);
      || (rung == "." && Plain(env) && g == base + [PREFIX, env])
      || (Plain(rung) && env == "." && g == base + [PREFIX, rung])
      || g <= base + [PREFIX]
  {
    assert (base + [PREFIX])[..|base|] == base;
    assert Plain(rung) ==> (base + [PREFIX] + [rung])[..|base| + 1] == base + [PREFIX];
    assert base != [] ==> base[..|base| - 1] <= base + [PREFIX];
  }

  predicate Safe(seg: string)
  {
    Plain(seg) && forall i :: 0 <= i < |seg| ==> KeyChar(seg[i])
  }

  /** Names of a plain run that lies in a dotted group. */
  lemma RunInDottedGroup(base: Path, rung: string, env: string) returns (r: string, e: string)
    requires rung != "" && env != "" && !(Plain(rung) && Plain(env)) && !(rung == ".." && Plain(env) && env != PREFIX)
    ensures Plain(r) && Plain(e) && (r != rung || e != env)
    ensures Plain(rung) ==> r == rung
    ensures !Plain(rung) ==> r == env || r == "x"
    ensures e == "x" + env || e == "x"
    ensures Enter(Enter(base + [PREFIX], rung), env) <= base + [PREFIX, r, e, "x", "x"]
  {
    DottedGroup(base, rung, env);
    r := if Plain(rung) then rung else if rung == "." && Plain(env) then env else "x";
    e := if Plain(env) then "x" + env else "x";
    assert e[0] == 'x';
    RunBelow(base, Enter(Enter(base + [PREFIX], rung), env), r, e);
  }

  /**
   * Against runs of plain names only, a group whose own names are dots is apart in one harmless shape: its rung is
   * ".." and its environment a plain name other than the prefix.
   */
  lemma GroupsApart(base: Path, rung: string, env: string)
    requires rung != "" && env != ""
    ensures Apart(base, rung, env) <==> Plain(env) && (Plain(rung) || (rung == ".." && env != PREFIX))
  {
    if Plain(rung) && Plain(env) {
      PlainGroupApart(base, rung, env);
    } else if rung == ".." && Plain(env) && env != PREFIX {
      RaisedGroupApart(base, env);
    } else {
      var r, e := RunInDottedGroup(base, rung, env);
    }
  }

  // ----- No group is apart from every other -----

  /** The walk of a group meets a run of some other group. */
  ghost predicate Crowded(base: Path, own: RunContext)
  {
    exists other: RunContext :: other.GroupKey() != own.GroupKey() && Inside(base, own, other)
  }

  lemma InsideSegments(base: Path, own: RunContext, other: RunContext, r: string, e: string, c: string, t: string)
    requires PlainPath(base) && other.R() == r && other.E() == e && other.C() == c && other.T() == t
    ensures Inside(base, own, other) <==> Enter(Enter(base + [PREFIX], own.R()), own.E()) <= Four(base, r, e, c, t)
  {
    Located(base, own);
    Located(base, other);
  }

  lemma CrowdedBy(base: Path, own: RunContext, other: RunContext)
    requires other.GroupKey() != own.GroupKey() && Inside(base, own, other)
    ensures Crowded(base, own)
  {
  }

  lemma RaisedNeighbour(base: Path, own: RunContext)
    requires PlainPath(base) && own.R() == ".." && Plain(own.E())
    ensures Crowded(base, own)
  {
    var e := own.E();
    var other := RunContext(".", "..", e, "x");
    RaisedContext(own, other);
    InsideSegments(base, own, other, ".", "..", e, "x");
    RaisedPath(base, e);
    RaisedKeys(e);
    CrowdedBy(base, own, other);
  }

  lemma RaisedContext(own: RunContext, other: RunContext)
    requires other == RunContext(".", "..", own.E(), "x")
    ensures other.R() == "." && other.E() == ".." && other.C() == own.E() && other.T() == "x"
  {
    SafeIsKept(".");
    SafeIsKept("..");
    SafeIsKept("x");
    SanitizeKeepsSafe(own.Env());
    TrimTight("..");
  }

  lemma RaisedPath(base: Path, e: string)
    requires Plain(e)
    ensures Enter(Enter(base + [PREFIX], ".."), e) <= Four(base, ".", "..", e, "x")
  {
    assert (base + [PREFIX])[..|base|] == base;
    assert Four(base, ".", "..", e, "x") == base + [e] + ["x"];
  }

  lemma RaisedKeys(e: string)
    requires Plain(e)
    ensures RelClean([PREFIX, ".", ".."]) == [] && RelClean([PREFIX, "..", e]) == [e]
  {
    RelPlain([PREFIX]);
    assert [PREFIX, ".", ".."][..2] == [PREFIX, "."] && [PREFIX, "."][..1] == [PREFIX];
    assert [PREFIX, "..", e][..2] == [PREFIX, ".."] && [PREFIX, ".."][..1] == [PREFIX];
  }

  lemma DottedKeyIsShort(r: string, e: string)
    requires !(Plain(r) && Plain(e))
    ensures |RelClean([PREFIX, r, e])| <= 2
  {
    RelPlain([PREFIX]);
    assert [PREFIX, r, e][..2] == [PREFIX, r] && [PREFIX, r][..1] == [PREFIX];
  }

  lemma PlainContext(r: string, e: string)
    requires Safe(r) && Safe(e)
    ensures var rc := RunContext(r, e, "x", "x");
      rc.R() == r && rc.E() == e && rc.C() == "x" && rc.T() == "x" && rc.GroupKey() == [PREFIX, r, e]
  {
    SafeIsKept(r);
    SafeIsKept(e);
    SafeIsKept("x");
    SafeTrims(e);
    RelPlain([PREFIX, r, e]);
  }

  lemma SafeParts(own: RunContext, r: string, e: string)
    requires Plain(r) && Plain(e)
    requires r == own.R() || r == own.E() || r == "x"
    requires e == "x" + own.E() || e == "x"
    ensures Safe(r) && Safe(e)
  {
    SanitizeKeepsSafe(own.rung);
    SanitizeKeepsSafe(own.Env());
  }

  lemma DottedIsCrowded(base: Path, own: RunContext)
    requires PlainPath(base) && !(Plain(own.R()) && Plain(own.E()))
    requires !(own.R() == ".." && Plain(own.E()) && own.E() != PREFIX)
    ensures Crowded(base, own)
  {
    SanitizedNames(own);
    var r, e := RunInDottedGroup(base, own.R(), own.E());
    SafeParts(own, r, e);
    var other := RunContext(r, e, "x", "x");
    PlainContext(r, e);
    InsideSegments(base, own, other, r, e, "x", "x");
    PlainFour(base, r, e);
    DottedKeyIsShort(own.R(), own.E());
    CrowdedBy(base, own, other);
  }

  lemma PlainFour(base: Path, r: string, e: string)
    requires Plain(r) && Plain(e)
    ensures Four(base, r, e, "x", "x") == base + [PREFIX, r, e, "x", "x"]
  {
  }

  /** Dots let some run of another group into every group, plain or dotted. */
  lemma NoGroupIsApart(base: Path, own: RunContext)
    requires PlainPath(base)
    ensures Crowded(base, own)
  {
    if Plain(own.R()) && Plain(own.E()) {
      SafeIsKept("x");
      DottedNeighbour(base, own, "x");
    } else if own.R() == ".." && Plain(own.E()) {
      RaisedNeighbour(base, own);
    } else {
      DottedIsCrowded(base, own);
    }
  }

  /** Whatever the names: while neither key leaves the artefact directory, the keys decide, suffix included. */
  lemma InsideByKeys(base: Path, own: RunContext, other: RunContext, n: nat)
    requires PlainPath(base) && ".." !in own.GroupKey() && ".." !in other.KeyBase()
    ensures Inside(base, own, other) <==> own.GroupKey() <= other.KeyBase()
    ensures Locate(base, own.GroupKey()) <= Locate(base, Candidate(other.KeyBase(), n))
       <==> own.GroupKey() <= Candidate(other.KeyBase(), n)
  {
    RelSegments([PREFIX, own.R(), own.E()]);
    RelSegments(other.GroupKey() + [other.C(), other.T()]);
    CandidatePlain(other.KeyBase(), n);
    KeyStays(base, own.GroupKey());
    KeyStays(base, other.KeyBase());
    KeyStays(base, Candidate(other.KeyBase(), n));
    SamePrefix(base, own.GroupKey(), other.KeyBase());
    SamePrefix(base, own.GroupKey(), Candidate(other.KeyBase(), n));
  }

  // ----- Keys that climb out of the artefact directory -----

  lemma {:induction false} RelShape(segs: Path)
    ensures |RelClean(segs)| <= |segs|
    ensures forall i, j :: 0 <= i <= j < |RelClean(segs)| && RelClean(segs)[j] == ".." ==> RelClean(segs)[i] == ".."
  {
    if segs != [] { RelShape(segs[..|segs| - 1]); }
  }

  lemma RelPush(segs: Path, seg: string)
    requires PlainPath(RelClean(segs))
    ensures var a, b := RelClean(segs), RelClean(segs + [seg]);
      && (Plain(seg) ==> b == a + [seg] && PlainPath(b))
      && (seg == "" || seg == "." ==> b == a)
      && (seg == ".." ==> if a == [] then b == [".."] else b == a[..|a| - 1] && PlainPath(b))
  {
    RelOneMore(segs, seg);
  }

  lemma PushKeepsPlain(segs: Path, seg: string)
    requires PlainPath(RelClean(segs)) && RelClean(segs) != []
    ensures PlainPath(RelClean(segs + [seg])) && |RelClean(segs + [seg])| >= |RelClean(segs)| - 1
  {
    RelPush(segs, seg);
  }

  /** Two names cannot climb above two plain ones. */
  lemma StaysBelow(p: Path, c: string, t: string)
    requires PlainPath(p) && |p| >= 2
    ensures ".." !in RelClean(p + [c, t])
  {
    RelPlain(p);
    PushKeepsPlain(p, c);
    var q := p + [c];
    assert p + [c, t] == q + [t];
    PushKeepsPlain(q, t);
  }

  lemma GroupKeyShape(rc: RunContext)
    ensures PlainPath(rc.GroupKey()) || rc.GroupKey() == [".."]
  {
    var r, e := rc.R(), rc.E();
    RelPlain([PREFIX]);
    RelPush([PREFIX], r);
    RelPush([PREFIX] + [r], e);
    assert [PREFIX] + [r] + [e] == [PREFIX, r, e];
  }

  lemma ClimbingKey(rc: RunContext)
    requires ".." in rc.KeyBase()
    ensures rc.KeyBase()[0] == ".." && |rc.KeyBase()| <= 3
  {
    GroupKeyShape(rc);
    RelShape(rc.GroupKey() + [rc.C(), rc.T()]);
    if |rc.GroupKey()| >= 2 { StaysBelow(rc.GroupKey(), rc.C(), rc.T()); }
  }

  lemma {:induction false} AbsLength(base: Path, segs: Path)
    requires PlainPath(base)
    ensures |AbsClean(base + segs)| <= |base| + |segs|
  {
    if segs == [] {
      AbsPlain(base);
      assert base + segs == base;
    } else {
      AbsLength(base, segs[..|segs| - 1]);
      assert (base + segs)[..|base + segs| - 1] == base + segs[..|segs| - 1];
    }
  }

  lemma {:induction false} ClimbLength(base: Path, segs: Path)
    requires PlainPath(base) && segs != [] && segs[0] == ".."
    ensures |AbsClean(base + segs)| < |base| + |segs|
  {
    var init := segs[..|segs| - 1];
    assert (base + segs)[..|base + segs| - 1] == base + init;
    if init == [] {
      AbsPlain(base);
      assert base + init == base;
    } else {
      ClimbLength(base, init);
    }
  }

  /** A key that climbs ends too high for any group of plain names. */
  lemma ClimbingCandidate(base: Path, rc: RunContext, n: nat)
    requires PlainPath(base) && ".." in rc.KeyBase()
    ensures |Locate(base, Candidate(rc.KeyBase(), n))| < |base| + 3
    ensures Candidate(rc.KeyBase(), n)[0] != PREFIX
  {
    var key, c := rc.KeyBase(), Candidate(rc.KeyBase(), n);
    ClimbingKey(rc);
    AbsLength(base, c);
    if |c| >= 2 || n <= 1 {
      assert c[0] == "..";
      ClimbLength(base, c);
    } else {
      assert (".." + "-" + Itoa(n))[0] == '.';
    }
  }

  /**
   * Over every other run, however it is named, and every key it may have got: it lies in a group of two plain
   * names exactly if the group's key is a prefix of its own.
   */
  lemma InsideExactly(base: Path, own: RunContext, other: RunContext, n: nat)
    requires PlainPath(base) && Plain(own.R()) && Plain(own.E())
    ensures own.GroupKey() == [PREFIX, own.R(), own.E()]
    ensures Locate(base, own.GroupKey()) <= Locate(base, Candidate(other.KeyBase(), n))
       <==> own.GroupKey() <= Candidate(other.KeyBase(), n)
  {
    RelPlain([PREFIX, own.R(), own.E()]);
    KeyStays(base, own.GroupKey());
    if ".." in other.KeyBase() {
      ClimbingCandidate(base, other, n);
    } else {
      InsideByKeys(base, own, other, n);
    }
  }


  lemma CandidatePlain(key: Path, n: nat)
    requires PlainPath(key)
    ensures PlainPath(Candidate(key, n))
  {
    if n >= 2 {
      var last := LastOf(key);
      assert (last + "-" + Itoa(n))[|last|] == '-';
    }
  }

  lemma SamePrefix(head: Path, a: Path, b: Path)
    ensures head + a <= head + b <==> a <= b
  {
    if a <= b { assert head + b == head + a + b[|a|..]; }
    if head + a <= head + b {
      assert a == (head + b)[|head|..|head| + |a|] == b[..|a|];
    }
  }

  lemma KeyStays(base: Path, key: Path)
    requires PlainPath(base) && PlainPath(key)
    ensures Locate(base, key) == base + key
  {
    AbsPlain(base + key);
  }

  lemma SafeContext(rung: string, env: string, commit: string, stamp: string)
    requires Safe(rung) && Safe(commit) && Safe(stamp) && (Safe(env) || TrimSpace(env) == "")
    ensures var rc := RunContext(rung, env, commit, stamp);
      rc.R() == rung && rc.C() == commit && rc.T() == stamp && rc.E() == if TrimSpace(env) == "" then "none" else env
  {
    SafeIsKept(rung);
    SafeIsKept(commit);
    SafeIsKept(stamp);
    SafeIsKept(if TrimSpace(env) == "" then "none" else env);
  }

  lemma PlainKeys(rc: RunContext)
    requires Plain(rc.R()) && Plain(rc.E()) && Plain(rc.C()) && Plain(rc.T())
    ensures rc.GroupKey() == ["bdd", rc.R(), rc.E()] && rc.KeyBase() == ["bdd", rc.R(), rc.E(), rc.C(), rc.T()]
  {
    RelPlain([PREFIX, rc.R(), rc.E()]);
    PlainKey(rc.R(), rc.E(), rc.C(), rc.T());
  }

  /** Safe names are the segments of the keys they make, in this order; a blank environment is "none". */
  lemma KeyOfSafeNames(rung: string, env: string, commit: string, stamp: string)
    requires Safe(rung) && Safe(commit) && Safe(stamp) && (Safe(env) || TrimSpace(env) == "")
    ensures var e := if TrimSpace(env) == "" then "none" else env;
      var rc := RunContext(rung, env, commit, stamp);
      rc.GroupKey() == ["bdd", rung, e] && rc.KeyBase() == ["bdd", rung, e, commit, stamp]
  {
    SafeContext(rung, env, commit, stamp);
    PlainKeys(RunContext(rung, env, commit, stamp));
  }

  /** Runs that share a stamp are ranked by their suffix as text: below ten that is the order of capture. */
  lemma SuffixOrder(stamp: string, m: nat, n: nat)
    requires 2 <= m < n
    ensures Less(stamp + "-" + Itoa(m), stamp + "-" + Itoa(n)) <==> m * Pow10(Widening(0, m, n)) <= n
  {
    PaddedOrder(0, m, n, [], []);
    assert Padded(0, m) == Itoa(m) && Padded(0, n) == Itoa(n);
    assert Itoa(m) + [] == Itoa(m) && Itoa(n) + [] == Itoa(n);
    LessAfterPrefix(stamp + "-", Itoa(m), Itoa(n));
  }
}
