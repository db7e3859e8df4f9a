/** The cache canary: does a repo's later attempt reuse the prompt prefix that the first one wrote? */
module Canary {
  import opened Text
  import opened Sorting

  datatype Usage = Usage(read: nat, creation: nat, input: nat)

  /** The session totals, with the metrics derived from them. */
  datatype Totals = Totals(active: bool, work: nat, billed: real, hitRatio: real)

  datatype Observation = Observation(repo: string, ticket: string, attempt: string, startedAt: int,
                                     firstTurn: Usage, hasFirstTurn: bool, totals: Totals, version: string)

  datatype Config = Config(minPrefix: int, shareFloor: real, minAttempts: int, coldFraction: real)

  datatype Reason = NoFrame | VersionUnknown | VersionChanged(from: string, to: string) | VersionSame

  datatype Finding =
    | NeverEngaged(ticket: string, attempt: string, work: nat, baseline: bool)
    | NotReused(ticket: string, attempt: string, why: Reason)

  datatype Row = Row(ticket: string, attempt: string, startedAt: int, baseline: bool, hasFirstTurn: bool,
                     firstTurn: Usage, share: real, cold: bool, inactive: bool, totals: Totals, version: string)

  datatype RepoResult = RepoResult(repo: string, attempts: seq<Row>, judged: bool, fired: bool, findings: seq<Finding>)

  // ----- Order -----

  predicate Before(a: Observation, b: Observation)
  {
    if a.startedAt != b.startedAt then a.startedAt < b.startedAt
    else if a.ticket != b.ticket then Less(a.ticket, b.ticket)
    else Less(a.attempt, b.attempt)
  }

  /** Puts o after everything that it does not precede. */
  function Insert(s: seq<Observation>, o: Observation): (r: seq<Observation>)
    ensures |r| == |s| + 1
  {
    if s == [] || !Before(o, s[|s| - 1]) then s + [o]
    else Insert(s[..|s| - 1], o) + [s[|s| - 1]]
  }

  /** The stable sort of the observations. */
  function Ordered(obs: seq<Observation>): (s: seq<Observation>)
    ensures |s| == |obs|
  {
    if obs == [] then [] else Insert(Ordered(obs[..|obs| - 1]), obs[|obs| - 1])
  }

  function InRepo(obs: seq<Observation>, repo: string): (s: seq<Observation>)
    ensures forall o :: o in s <==> o in obs && o.repo == repo
  {
    if obs == [] then []
    else
      var rest, last := InRepo(obs[..|obs| - 1], repo), obs[|obs| - 1];
      if last.repo == repo then rest + [last] else rest
  }

  /** The repos seen, in lexical order. */
  function Repos(obs: seq<Observation>): (names: seq<string>)
    ensures Ascending(names) && forall n :: n in names <==> InRepo(obs, n) != []
  {
    if obs == [] then [] else With(Repos(obs[..|obs| - 1]), obs[|obs| - 1].repo)
  }

  // ----- One repo -----

  function Share(u: Usage): real
  {
    var all := u.read + u.creation + u.input;
    if all == 0 then 0.0 else u.read as real / all as real
  }

  predicate Reused(o: Observation, cfg: Config)
  {
    o.hasFirstTurn && o.firstTurn.read >= cfg.minPrefix && Share(o.firstTurn) >= cfg.shareFloor
  }

  predicate Inactive(o: Observation)
  {
    !o.totals.active && o.totals.work > 0
  }

  function Why(o: Observation, baseline: string): Reason
  {
    if !o.hasFirstTurn then NoFrame
    else if baseline == "" || o.version == "" then VersionUnknown
    else if baseline != o.version then VersionChanged(baseline, o.version)
    else VersionSame
  }

  function RowOf(o: Observation, first: bool, cfg: Config): Row
  {
    Row(o.ticket, o.attempt, o.startedAt, first, o.hasFirstTurn,
        if o.hasFirstTurn then o.firstTurn else Usage(0, 0, 0), if o.hasFirstTurn then Share(o.firstTurn) else 0.0,
        !first && !Reused(o, cfg), Inactive(o), o.totals, o.version)
  }

  function FindingsOf(o: Observation, first: bool, baseline: string, cfg: Config): seq<Finding>
  {
    (if Inactive(o) then [NeverEngaged(o.ticket, o.attempt, o.totals.work, first)] else [])
    + (if !first && !Reused(o, cfg) then [NotReused(o.ticket, o.attempt, Why(o, baseline))] else [])
  }

  function Rows(s: seq<Observation>, cfg: Config): (rows: seq<Row>)
    ensures |rows| == |s|
  {
    if s == [] then []
    else
      var n := |s| - 1;
      Rows(s[..n], cfg) + [RowOf(s[n], n == 0, cfg)]
  }

  lemma {:induction false} RowAt(s: seq<Observation>, i: nat, cfg: Config)
    requires i < |s|
    ensures Rows(s, cfg)[i] == RowOf(s[i], i == 0, cfg)
    decreases |s|
  {
    if i < |s| - 1 { RowAt(s[..|s| - 1], i, cfg); }
  }

  function Findings(s: seq<Observation>, cfg: Config): seq<Finding>
  {
    if s == [] then []
    else
      var n := |s| - 1;
      Findings(s[..n], cfg) + FindingsOf(s[n], n == 0, s[0].version, cfg)
  }

  /** Attempts after the first that did not reuse the prefix. */
  function ColdCount(s: seq<Observation>, cfg: Config): (n: nat)
    ensures n == 0 || n < |s|
  {
    if |s| <= 1 then 0
    else ColdCount(s[..|s| - 1], cfg) + (if Reused(s[|s| - 1], cfg) then 0 else 1)
  }

  predicate MostlyCold(s: seq<Observation>, cfg: Config)
  {
    |s| > 1 && ColdCount(s, cfg) as real / (|s| - 1) as real >= cfg.coldFraction
  }

  predicate Fires(s: seq<Observation>, cfg: Config)
  {
    |s| >= cfg.minAttempts && (MostlyCold(s, cfg) || exists i :: 0 <= i < |s| && Inactive(s[i]))
  }

  function Judge(repo: string, s: seq<Observation>, cfg: Config): RepoResult
  {
    RepoResult(repo, Rows(s, cfg), |s| >= cfg.minAttempts, Fires(s, cfg), Findings(s, cfg))
  }

  lemma OneMore(s: seq<Observation>, i: nat, cfg: Config)
    requires i < |s|
    ensures Rows(s[..i + 1], cfg) == Rows(s[..i], cfg) + [RowOf(s[i], i == 0, cfg)]
    ensures Findings(s[..i + 1], cfg) == Findings(s[..i], cfg) + FindingsOf(s[i], i == 0, s[0].version, cfg)
    ensures ColdCount(s[..i + 1], cfg) == ColdCount(s[..i], cfg) + (if i > 0 && !Reused(s[i], cfg) then 1 else 0)
  {
    assert s[..i + 1][..i] == s[..i];
  }

  method Fired(rows: seq<Row>, judged: bool, nonBaseline: nat, cold: nat, cfg: Config) returns (fired: bool)
    ensures fired <==> judged && ((nonBaseline > 0 && cold as real / nonBaseline as real >= cfg.coldFraction)
                                  || exists i :: 0 <= i < |rows| && rows[i].inactive)
  {
    fired := false;
    if judged {
      if nonBaseline > 0 && cold as real / nonBaseline as real >= cfg.coldFraction {
        fired := true;
      }
      ghost var most := fired;
      for i := 0 to |rows|
        invariant fired <==> most || exists j :: 0 <= j < i && rows[j].inactive
      {
        if rows[i].inactive {
          fired := true;
        }
      }
    }
  }

  /** One observation's row and findings. */
  method Examine(o: Observation, first: bool, baseline: string, cfg: Config) returns (row: Row, found: seq<Finding>)
    ensures row == RowOf(o, first, cfg) && found == FindingsOf(o, first, baseline, cfg)
  {
    row := Row(o.ticket, o.attempt, o.startedAt, first, o.hasFirstTurn, Usage(0, 0, 0), 0.0, false, false,
               o.totals, o.version);
    found := [];
    if o.hasFirstTurn {
      row := row.(firstTurn := o.firstTurn, share := Share(o.firstTurn));
    }
    if !o.totals.active && o.totals.work > 0 {
      row := row.(inactive := true);
      found := found + [NeverEngaged(o.ticket, o.attempt, o.totals.work, first)];
    }
    if !first && !(o.hasFirstTurn && o.firstTurn.read >= cfg.minPrefix && row.share >= cfg.shareFloor) {
      row := row.(cold := true);
      found := found + [NotReused(o.ticket, o.attempt, Why(o, baseline))];
    }
  }

  /** The loop over one repo's ordered attempts. */
  method Rollup(s: seq<Observation>, cfg: Config)
    returns (attempts: seq<Row>, findings: seq<Finding>, nonBaseline: nat, cold: nat)
    ensures attempts == Rows(s, cfg) && findings == Findings(s, cfg) && cold == ColdCount(s, cfg)
    ensures nonBaseline == if s == [] then 0 else |s| - 1
  {
    attempts, findings, nonBaseline, cold := [], [], 0, 0;
    var baseline := "";
    for i := 0 to |s|
      invariant attempts == Rows(s[..i], cfg) && findings == Findings(s[..i], cfg)
      invariant cold == ColdCount(s[..i], cfg) && nonBaseline == (if i == 0 then 0 else i - 1)
      invariant i > 0 ==> baseline == s[0].version
    {
      OneMore(s, i, cfg);
      if i == 0 {
        baseline := s[i].version;
      }
      var row, found := Examine(s[i], i == 0, baseline, cfg);
      if i > 0 {
        nonBaseline := nonBaseline + 1;
        if row.cold {
          cold := cold + 1;
        }
      }
      findings := findings + found;
      attempts := attempts + [row];
    }
    assert s[..|s|] == s;
  }

  method AnalyzeRepo(repo: string, obs: seq<Observation>, cfg: Config) returns (res: RepoResult)
    ensures res == Judge(repo, Ordered(obs), cfg)
  {
    var s := Ordered(obs);
    var attempts, findings, nonBaseline, cold := Rollup(s, cfg);
    forall i | 0 <= i < |s| ensures attempts[i].inactive == Inactive(s[i]) { RowAt(s, i, cfg); }
    var fired := Fired(attempts, |s| >= cfg.minAttempts, nonBaseline, cold, cfg);
    res := RepoResult(repo, attempts, |s| >= cfg.minAttempts, fired, findings);
  }

  const DEFAULT_CONFIG := Config(1024, 0.5, 2, 0.5)

  function ColdAmong(rows: seq<Row>): nat
  {
    if rows == [] then 0
    else ColdAmong(rows[..|rows| - 1]) + (if rows[|rows| - 1].cold then 1 else 0)
  }

  /** The rows marked cold are the ones that were counted. */
  lemma {:induction false} ColdRowsCounted(s: seq<Observation>, cfg: Config)
    ensures ColdAmong(Rows(s, cfg)) == ColdCount(s, cfg)
  {
    if s != [] {
      ColdRowsCounted(s[..|s| - 1], cfg);
      assert Rows(s, cfg)[..|s| - 1] == Rows(s[..|s| - 1], cfg);
    }
  }

  lemma HalfOrMore(m: nat, n: nat)
    requires n > 0
    ensures m as real / n as real >= 0.5 <==> 2 * m >= n
  {
    var q := m as real / n as real;
    assert q * n as real == m as real;
    if q >= 0.5 { assert q * n as real >= 0.5 * n as real; }
    if q < 0.5 { assert q * n as real < 0.5 * n as real; }
  }

  /** As shipped: a repo of two attempts or more fires when half of the later ones are cold, or caching was off. */
  lemma DefaultFires(repo: string, s: seq<Observation>)
    ensures var res := Judge(repo, s, DEFAULT_CONFIG);
      res.fired <==> |s| >= 2 && (2 * ColdAmong(res.attempts) >= |s| - 1
                                  || exists i :: 0 <= i < |res.attempts| && res.attempts[i].inactive)
  {
    ColdRowsCounted(s, DEFAULT_CONFIG);
    if |s| >= 2 { HalfOrMore(ColdCount(s, DEFAULT_CONFIG), |s| - 1); }
    forall i | 0 <= i < |s| ensures Rows(s, DEFAULT_CONFIG)[i].inactive == Inactive(s[i]) { RowAt(s, i, DEFAULT_CONFIG); }
  }

  // ----- A repo's result, field by field -----

  lemma Quotient(m: real, n: real, q: real)
    requires n > 0.0
    ensures m / n >= q <==> m >= q * n
    ensures m / n * n == m
  {
    var r := m / n;
    assert r * n == m;
    if r >= q { assert (r - q) * n >= 0.0; } else { assert (q - r) * n > 0.0; }
  }

  function PromptTokens(u: Usage): nat
  {
    u.read + u.creation + u.input
  }

  /** The share of the first prompt that was read from the cache; nothing of an empty one. */
  lemma ShareMeans(u: Usage)
    ensures if PromptTokens(u) == 0 then Share(u) == 0.0
            else Share(u) * PromptTokens(u) as real == u.read as real
  {
    if PromptTokens(u) > 0 { Quotient(u.read as real, PromptTokens(u) as real, 0.0); }
  }

  /** The first prompt read enough from the cache, in tokens and as a part of all of them. */
  predicate ReadsEnough(o: Observation, cfg: Config)
  {
    && o.hasFirstTurn && o.firstTurn.read >= cfg.minPrefix
    && if PromptTokens(o.firstTurn) == 0 then cfg.shareFloor <= 0.0
       else o.firstTurn.read as real >= cfg.shareFloor * PromptTokens(o.firstTurn) as real
  }

  lemma ReusedExactly(o: Observation, cfg: Config)
    ensures Reused(o, cfg) <==> ReadsEnough(o, cfg)
  {
    var n := PromptTokens(o.firstTurn);
    if n > 0 { Quotient(o.firstTurn.read as real, n as real, cfg.shareFloor); }
  }

  /** The row tells of this observation what was measured and what follows from it. */
  predicate Tells(row: Row, o: Observation, i: nat, cfg: Config)
  {
    && row.ticket == o.ticket && row.attempt == o.attempt && row.startedAt == o.startedAt
    && row.totals == o.totals && row.version == o.version && row.hasFirstTurn == o.hasFirstTurn
    && (o.hasFirstTurn ==> row.firstTurn == o.firstTurn && row.share == Share(o.firstTurn))
    && (!o.hasFirstTurn ==> row.firstTurn == Usage(0, 0, 0) && row.share == 0.0)
    && (row.baseline <==> i == 0)
    && (row.cold <==> i > 0 && !Reused(o, cfg))
    && (row.inactive <==> !o.totals.active && o.totals.work > 0)
  }

  /** A finding about attempt i: caching was off, or it did not reuse the prefix and this is why. */
  predicate Found(f: Finding, s: seq<Observation>, i: nat, cfg: Config)
    requires i < |s|
  {
    var o, from := s[i], s[0].version;
    match f
    case NeverEngaged(ticket, attempt, work, baseline) =>
      && !o.totals.active && o.totals.work > 0
      && ticket == o.ticket && attempt == o.attempt && work == o.totals.work && baseline == (i == 0)
    case NotReused(ticket, attempt, why) =>
      && i > 0 && !Reused(o, cfg) && ticket == o.ticket && attempt == o.attempt
      && match why
         case NoFrame => !o.hasFirstTurn
         case VersionUnknown => o.hasFirstTurn && (from == "" || o.version == "")
         case VersionChanged(x, y) => o.hasFirstTurn && x == from && y == o.version && x != y && x != "" && y != ""
         case VersionSame => o.hasFirstTurn && from == o.version && from != ""
  }

  lemma FoundByOne(f: Finding, s: seq<Observation>, i: nat, cfg: Config)
    requires i < |s|
    ensures f in FindingsOf(s[i], i == 0, s[0].version, cfg) <==> Found(f, s, i, cfg)
  {
  }

  ghost predicate FoundAmong(f: Finding, s: seq<Observation>, cfg: Config)
  {
    exists i :: 0 <= i < |s| && Found(f, s, i, cfg)
  }

  lemma FoundInOneMore(f: Finding, s: seq<Observation>, cfg: Config)
    requires s != []
    ensures FoundAmong(f, s, cfg) <==> FoundAmong(f, s[..|s| - 1], cfg) || Found(f, s, |s| - 1, cfg)
  {
    var init := s[..|s| - 1];
    forall i | 0 <= i < |init| ensures Found(f, init, i, cfg) <==> Found(f, s, i, cfg) {
      assert init[i] == s[i] && init[0] == s[0];
    }
  }

  lemma {:induction false} FindingsExactly(s: seq<Observation>, cfg: Config, f: Finding)
    ensures f in Findings(s, cfg) <==> FoundAmong(f, s, cfg)
  {
    if s != [] {
      var n := |s| - 1;
      FindingsExactly(s[..n], cfg, f);
      FoundByOne(f, s, n, cfg);
      FoundInOneMore(f, s, cfg);
      assert n > 0 ==> s[..n][0] == s[0];
    }
  }

  predicate AtLeast(cold: nat, later: nat, fraction: real)
  {
    later > 0 && cold as real >= fraction * later as real
  }

  lemma PartAtLeast(cold: nat, later: nat, fraction: real)
    requires later > 0
    ensures cold as real / later as real >= fraction <==> AtLeast(cold, later, fraction)
  {
    Quotient(cold as real, later as real, fraction);
  }

  /** One more attempt adds its findings at the end: first that caching was off, then that the prefix was not reused. */
  lemma FindingsInOrder(s: seq<Observation>, cfg: Config)
    requires s != []
    ensures var before, after, n := Findings(s[..|s| - 1], cfg), Findings(s, cfg), |s| - 1;
      && before <= after && |after| <= |before| + 2
      && (forall k :: |before| <= k < |after| ==> Found(after[k], s, n, cfg))
      && (|after| == |before| + 2 ==> after[|before|].NeverEngaged? && after[|before| + 1].NotReused?)
  {
    var n := |s| - 1;
    var last := FindingsOf(s[n], n == 0, s[0].version, cfg);
    forall k | 0 <= k < |last| ensures Found(last[k], s, n, cfg) {
      FoundByOne(last[k], s, n, cfg);
    }
  }

  lemma MostlyColdExactly(s: seq<Observation>, cfg: Config)
    ensures MostlyCold(s, cfg) <==> s != [] && AtLeast(ColdCount(s, cfg), |s| - 1, cfg.coldFraction)
  {
    if |s| > 1 { PartAtLeast(ColdCount(s, cfg), |s| - 1, cfg.coldFraction); }
  }

  predicate CachingOff(s: seq<Observation>)
  {
    exists o :: o in s && !o.totals.active && o.totals.work > 0
  }

  /** A repo fires when it is judged and enough of its later attempts were cold, or caching was off for one. */
  lemma FiresExactly(s: seq<Observation>, cfg: Config)
    ensures Fires(s, cfg) <==> |s| >= cfg.minAttempts && (MostlyCold(s, cfg) || CachingOff(s))
  {
    if i: nat :| i < |s| && Inactive(s[i]) { assert s[i] in s; }
  }

  /** What is said of a repo whose attempts are these, in this order. */
  lemma JudgesExactly(repo: string, s: seq<Observation>, cfg: Config)
    ensures var res := Judge(repo, s, cfg);
      && res.repo == repo && |res.attempts| == |s|
      && (res.judged <==> |s| >= cfg.minAttempts) && (res.fired <==> Fires(s, cfg))
      && (forall i :: 0 <= i < |s| ==> Tells(res.attempts[i], s[i], i, cfg))
      && (forall f :: f in res.findings <==> FoundAmong(f, s, cfg))
  {
    forall i | 0 <= i < |s| ensures Tells(Rows(s, cfg)[i], s[i], i, cfg) {
      RowAt(s, i, cfg);
    }
    forall f ensures f in Findings(s, cfg) <==> FoundAmong(f, s, cfg) {
      FindingsExactly(s, cfg, f);
    }
  }

  // ----- The whole scan -----

  function JudgeRepo(obs: seq<Observation>, repo: string, cfg: Config): RepoResult
  {
    Judge(repo, Ordered(InRepo(obs, repo)), cfg)
  }

  function ReportOn(obs: seq<Observation>, repos: seq<string>, cfg: Config): (r: seq<RepoResult>)
    ensures |r| == |repos|
  {
    if repos == [] then []
    else
      var n := |repos| - 1;
      ReportOn(obs, repos[..n], cfg) + [JudgeRepo(obs, repos[n], cfg)]
  }

  /** Every repo seen, in lexical order. */
  function Report(obs: seq<Observation>, cfg: Config): seq<RepoResult>
  {
    ReportOn(obs, Repos(obs), cfg)
  }

  lemma {:induction false} ReportAt(obs: seq<Observation>, repos: seq<string>, k: nat, cfg: Config)
    requires k < |repos|
    ensures ReportOn(obs, repos, cfg)[k] == JudgeRepo(obs, repos[k], cfg)
    decreases |repos|
  {
    if k < |repos| - 1 { ReportAt(obs, repos[..|repos| - 1], k, cfg); }
  }

  lemma InRepoStep(obs: seq<Observation>, i: nat, r: string)
    requires i < |obs|
    ensures InRepo(obs[..i + 1], r) == InRepo(obs[..i], r) + (if obs[i].repo == r then [obs[i]] else [])
  {
    assert obs[..i + 1][..i] == obs[..i];
  }

  method Group(obs: seq<Observation>) returns (byRepo: map<string, seq<Observation>>)
    ensures forall r :: InRepo(obs, r) == if r in byRepo then byRepo[r] else []
    ensures forall r :: r in byRepo <==> InRepo(obs, r) != []
  {
    byRepo := map[];
    for i := 0 to |obs|
      invariant forall r :: InRepo(obs[..i], r) == if r in byRepo then byRepo[r] else []
      invariant forall r :: r in byRepo ==> byRepo[r] != []
    {
      var o := obs[i];
      forall r { InRepoStep(obs, i, r); }
      byRepo := byRepo[o.repo := (if o.repo in byRepo then byRepo[o.repo] else []) + [o]];
    }
    assert obs[..|obs|] == obs;
  }

  lemma ReportStep(obs: seq<Observation>, repos: seq<string>, i: nat, group: seq<Observation>, cfg: Config)
    requires i < |repos| && group == InRepo(obs, repos[i])
    ensures ReportOn(obs, repos[..i + 1], cfg) == ReportOn(obs, repos[..i], cfg) + [Judge(repos[i], Ordered(group), cfg)]
  {
    assert repos[..i + 1][..i] == repos[..i];
  }

  method Analyze(obs: seq<Observation>, cfg: Config) returns (report: seq<RepoResult>)
    ensures report == Report(obs, cfg)
  {
    var byRepo := Group(obs);
    var order := SortNames(byRepo.Keys);
    NamesUnique(order, Repos(obs));
    report := [];
    for i := 0 to |order|
      invariant report == ReportOn(obs, order[..i], cfg)
    {
      assert order[i] in order;
      var res := AnalyzeRepo(order[i], byRepo[order[i]], cfg);
      ReportStep(obs, order, i, byRepo[order[i]], cfg);
      report := report + [res];
    }
    assert order[..|order|] == order;
  }

  // ----- The report does not depend on the order of the observations -----

  predicate SameKey(a: Observation, b: Observation)
  {
    a.repo == b.repo && a.ticket == b.ticket && a.attempt == b.attempt
  }

  /** No two observations of one attempt. */
  predicate DistinctKeys(all: multiset<Observation>)
  {
    && (forall x :: x in all ==> all[x] == 1)
    && (forall x, y :: x in all && y in all && SameKey(x, y) ==> x == y)
  }

  lemma {:induction false} InRepoCounts(obs: seq<Observation>, repo: string, x: Observation)
    ensures multiset(InRepo(obs, repo))[x] == if x.repo == repo then multiset(obs)[x] else 0
  {
    if obs != [] {
      InRepoCounts(obs[..|obs| - 1], repo, x);
      assert obs == obs[..|obs| - 1] + [obs[|obs| - 1]];
    }
  }

  lemma {:induction false} InsertPermutes(s: seq<Observation>, o: Observation)
    ensures multiset(Insert(s, o)) == multiset(s) + multiset{o}
  {
    if s != [] && Before(o, s[|s| - 1]) {
      InsertPermutes(s[..|s| - 1], o);
      assert s == s[..|s| - 1] + [s[|s| - 1]];
    }
  }

  lemma {:induction false} OrderedPermutes(obs: seq<Observation>)
    ensures multiset(Ordered(obs)) == multiset(obs)
  {
    if obs != [] {
      OrderedPermutes(obs[..|obs| - 1]);
      InsertPermutes(Ordered(obs[..|obs| - 1]), obs[|obs| - 1]);
      assert obs == obs[..|obs| - 1] + [obs[|obs| - 1]];
    }
  }

  lemma BeforeTransitive(a: Observation, b: Observation, c: Observation)
    requires Before(a, b) && Before(b, c)
    ensures Before(a, c)
  {
    if a.ticket == b.ticket == c.ticket {
      if a.startedAt == b.startedAt == c.startedAt { LessTransitive(a.attempt, b.attempt, c.attempt); }
    } else if a.startedAt == b.startedAt == c.startedAt {
      if a.ticket != b.ticket && b.ticket != c.ticket {
        LessTransitive(a.ticket, b.ticket, c.ticket);
        if a.ticket == c.ticket { LessAsymmetric(a.ticket, b.ticket); }
      }
    }
  }

  lemma BeforeAsymmetric(a: Observation, b: Observation)
    requires Before(a, b)
    ensures !Before(b, a)
  {
    if a.startedAt == b.startedAt {
      if a.ticket != b.ticket { LessAsymmetric(a.ticket, b.ticket); } else { LessAsymmetric(a.attempt, b.attempt); }
    }
  }

  lemma BeforeTotal(a: Observation, b: Observation)
    requires a.ticket != b.ticket || a.attempt != b.attempt
    ensures Before(a, b) || Before(b, a)
  {
    if a.ticket != b.ticket { LessTotal(a.ticket, b.ticket); } else { LessTotal(a.attempt, b.attempt); }
  }

  /** Not later, and at one time not greater in ticket and attempt. */
  predicate InTime(a: Observation, b: Observation)
  {
    || a.startedAt < b.startedAt
    || (a.startedAt == b.startedAt && Less(a.ticket, b.ticket))
    || (a.startedAt == b.startedAt && a.ticket == b.ticket && (a.attempt == b.attempt || Less(a.attempt, b.attempt)))
  }

  lemma InTimeExactly(a: Observation, b: Observation)
    ensures InTime(a, b) <==> !Before(b, a)
  {
    StrictOneWay(a.ticket, b.ticket);
    StrictOneWay(a.attempt, b.attempt);
  }

  lemma StrictOneWay(a: string, b: string)
    ensures Less(a, b) <==> a != b && !Less(b, a)
  {
    LessIrreflexive(a);
    if a != b { LessTotal(a, b); }
    if Less(a, b) { LessAsymmetric(a, b); }
  }

  lemma InTimeTransitive(a: Observation, b: Observation, c: Observation)
    requires InTime(a, b) && InTime(b, c)
    ensures InTime(a, c)
  {
    if Less(a.ticket, b.ticket) && Less(b.ticket, c.ticket) { LessTransitive(a.ticket, b.ticket, c.ticket); }
    if Less(a.attempt, b.attempt) && Less(b.attempt, c.attempt) { LessTransitive(a.attempt, b.attempt, c.attempt); }
  }

  ghost predicate AllInTime(s: seq<Observation>)
  {
    forall i, j :: 0 <= i < j < |s| ==> InTime(s[i], s[j])
  }

  lemma {:induction false} InsertInTime(s: seq<Observation>, o: Observation)
    requires AllInTime(s)
    ensures AllInTime(Insert(s, o))
  {
    if s != [] {
      var init, last := s[..|s| - 1], s[|s| - 1];
      InTimeExactly(last, o);
      if Before(o, last) {
        InsertInTime(init, o);
        InsertPermutes(init, o);
        BeforeAsymmetric(o, last);
        InTimeExactly(o, last);
        forall i | 0 <= i < |Insert(init, o)| ensures InTime(Insert(init, o)[i], last) {
          var x := Insert(init, o)[i];
          assert x in multiset(Insert(init, o));
          assert x == o || x in multiset(init);
        }
      } else {
        forall i | 0 <= i < |s| ensures InTime(s[i], o) {
          if i < |s| - 1 { InTimeTransitive(s[i], last, o); }
        }
      }
    }
  }

  /** The attempts of a repo in time, so that the baseline is the earliest; for all observations, distinct or not. */
  lemma {:induction false} OrderedInTime(obs: seq<Observation>)
    ensures AllInTime(Ordered(obs))
  {
    if obs != [] {
      OrderedInTime(obs[..|obs| - 1]);
      InsertInTime(Ordered(obs[..|obs| - 1]), obs[|obs| - 1]);
    }
  }

  /** The order over which the sort is strict. */
  function Order(): (Observation, Observation) -> bool
  {
    (a: Observation, b: Observation) => Before(a, b)
  }

  /** Inserting into distinct ascending observations. */
  lemma {:induction false} InsertAscending(s: seq<Observation>, o: Observation)
    requires Ascends(Order(), s)
    requires forall x :: x in s ==> x.ticket != o.ticket || x.attempt != o.attempt
    ensures Ascends(Order(), Insert(s, o))
  {
    if s != [] {
      var init, last := s[..|s| - 1], s[|s| - 1];
      if Before(o, last) {
        InsertAscending(init, o);
        InsertPermutes(init, o);
        forall i | 0 <= i < |Insert(init, o)| ensures Before(Insert(init, o)[i], last) {
          var x := Insert(init, o)[i];
          assert x in multiset(Insert(init, o));
          assert x == o || x in multiset(init);
        }
      } else {
        BeforeTotal(last, o);
        forall i | 0 <= i < |s| ensures Before(s[i], o) {
          if i < |s| - 1 { BeforeTransitive(s[i], last, o); }
        }
      }
    }
  }

  lemma {:induction false} OrderedAscends(obs: seq<Observation>)
    requires forall i, j :: 0 <= i < j < |obs| ==> obs[i].ticket != obs[j].ticket || obs[i].attempt != obs[j].attempt
    ensures Ascends(Order(), Ordered(obs))
  {
    if obs != [] {
      var init := obs[..|obs| - 1];
      OrderedAscends(init);
      OrderedPermutes(init);
      forall x | x in Ordered(init) ensures x.ticket != obs[|init|].ticket || x.attempt != obs[|init|].attempt {
        assert x in multiset(Ordered(init));
        var i :| 0 <= i < |init| && init[i] == x;
      }
      InsertAscending(Ordered(init), obs[|init|]);
    }
  }

  lemma CountedTwice(s: seq<Observation>, i: nat, j: nat)
    requires i < j < |s| && s[i] == s[j]
    ensures multiset(s)[s[i]] >= 2
  {
    assert s == s[..j] + [s[j]] + s[j + 1..];
    assert s[..j][i] == s[i] && s[i] in multiset(s[..j]);
  }

  /** A group of distinct attempts has distinct tickets or attempts at every pair of places. */
  lemma GroupIsDistinct(obs: seq<Observation>, repo: string, i: nat, j: nat)
    requires DistinctKeys(multiset(obs)) && i < j < |InRepo(obs, repo)|
    ensures var s := InRepo(obs, repo); s[i].ticket != s[j].ticket || s[i].attempt != s[j].attempt
  {
    var s := InRepo(obs, repo);
    assert s[i] in s && s[j] in s;
    assert s[i] in multiset(obs) && s[j] in multiset(obs);
    if s[i] == s[j] {
      InRepoCounts(obs, repo, s[i]);
      CountedTwice(s, i, j);
    }
  }

  /** Among distinct attempts the order is strict, so the first is the earliest. */
  lemma GroupAscends(obs: seq<Observation>, repo: string)
    requires DistinctKeys(multiset(obs))
    ensures Ascends(Order(), Ordered(InRepo(obs, repo)))
  {
    var x := InRepo(obs, repo);
    forall i, j | 0 <= i < j < |x| ensures x[i].ticket != x[j].ticket || x[i].attempt != x[j].attempt {
      GroupIsDistinct(obs, repo, i, j);
    }
    OrderedAscends(x);
  }

  /** One repo's ordered attempts do not depend on the order they came in. */
  lemma OrderedGroupUnique(a: seq<Observation>, b: seq<Observation>, repo: string)
    requires multiset(a) == multiset(b) && DistinctKeys(multiset(a))
    ensures Ordered(InRepo(a, repo)) == Ordered(InRepo(b, repo))
  {
    var x, y := InRepo(a, repo), InRepo(b, repo);
    GroupAscends(a, repo);
    GroupAscends(b, repo);
    OrderedPermutes(x);
    OrderedPermutes(y);
    forall o ensures o in Ordered(x) <==> o in Ordered(y) {
      InRepoCounts(a, repo, o);
      InRepoCounts(b, repo, o);
      assert o in Ordered(x) <==> o in multiset(Ordered(x));
      assert o in Ordered(y) <==> o in multiset(Ordered(y));
    }
    forall p, q: Observation | Before(p, q) ensures !Before(q, p) { BeforeAsymmetric(p, q); }
    assert Strict(Order());
    AscendingUnique(Order(), Ordered(x), Ordered(y));
  }

  lemma SameRepos(a: seq<Observation>, b: seq<Observation>)
    requires multiset(a) == multiset(b)
    ensures Repos(a) == Repos(b)
  {
    forall n ensures n in Repos(a) <==> n in Repos(b) {
      assert forall o :: o in a <==> o in multiset(a);
      assert forall o :: o in b <==> o in multiset(b);
      if InRepo(a, n) != [] { assert InRepo(a, n)[0] in b; assert InRepo(a, n)[0] in InRepo(b, n); }
      if InRepo(b, n) != [] { assert InRepo(b, n)[0] in a; assert InRepo(b, n)[0] in InRepo(a, n); }
    }
    NamesUnique(Repos(a), Repos(b));
  }

  lemma {:induction false} SameReportOn(a: seq<Observation>, b: seq<Observation>, repos: seq<string>, cfg: Config)
    requires multiset(a) == multiset(b) && DistinctKeys(multiset(a))
    ensures ReportOn(a, repos, cfg) == ReportOn(b, repos, cfg)
  {
    if repos != [] {
      SameReportOn(a, b, repos[..|repos| - 1], cfg);
      OrderedGroupUnique(a, b, repos[|repos| - 1]);
    }
  }

  /** Every permutation of distinct attempts gives the same report. */
  lemma PermutationsAgree(a: seq<Observation>, b: seq<Observation>, cfg: Config)
    requires multiset(a) == multiset(b) && DistinctKeys(multiset(a))
    ensures Report(a, cfg) == Report(b, cfg)
  {
    SameRepos(a, b);
    SameReportOn(a, b, Repos(a), cfg);
  }

  // ----- Every observation is placed once -----

  /** The observations in the order in which the report lists them. */
  function Listed(obs: seq<Observation>, repos: seq<string>): seq<Observation>
  {
    if repos == [] then []
    else Listed(obs, repos[..|repos| - 1]) + Ordered(InRepo(obs, repos[|repos| - 1]))
  }

  lemma {:induction false} ListedCounts(obs: seq<Observation>, repos: seq<string>, x: Observation)
    requires Ascending(repos)
    ensures multiset(Listed(obs, repos))[x] == if x.repo in repos then multiset(obs)[x] else 0
    decreases |repos|
  {
    if repos != [] {
      var init, repo := repos[..|repos| - 1], repos[|repos| - 1];
      ListedCounts(obs, init, x);
      OrderedPermutes(InRepo(obs, repo));
      InRepoCounts(obs, repo, x);
      LessIrreflexive(repo);
      assert repos == init + [repo] && repo !in init;
    }
  }

  /** The report lists the observations, each as often as it was given. */
  lemma EveryObservationListedOnce(obs: seq<Observation>)
    ensures multiset(Listed(obs, Repos(obs))) == multiset(obs)
  {
    forall x ensures multiset(Listed(obs, Repos(obs)))[x] == multiset(obs)[x] {
      ListedCounts(obs, Repos(obs), x);
      assert x in InRepo(obs, x.repo) <==> x in multiset(obs);
    }
  }

  /** A repo's rows are its listed observations, one for one, and only the first is its baseline. */
  lemma OneBaselinePerRepo(obs: seq<Observation>, cfg: Config, k: nat)
    requires k < |Repos(obs)|
    ensures |Report(obs, cfg)| == |Repos(obs)| && Report(obs, cfg)[k].repo == Repos(obs)[k]
    ensures var group, rows := Ordered(InRepo(obs, Repos(obs)[k])), Report(obs, cfg)[k].attempts;
      && |rows| == |group| > 0
      && forall i :: 0 <= i < |rows| ==> rows[i] == RowOf(group[i], i == 0, cfg) && (rows[i].baseline <==> i == 0)
  {
    ReportAt(obs, Repos(obs), k, cfg);
    assert Repos(obs)[k] in Repos(obs);
    var group := Ordered(InRepo(obs, Repos(obs)[k]));
    forall i | 0 <= i < |group| ensures Rows(group, cfg)[i] == RowOf(group[i], i == 0, cfg) { RowAt(group, i, cfg); }
  }

  // ----- Reading more from the cache never raises an alarm -----

  /** The same attempt, with at least as much of turn 1 read from the cache. */
  predicate Raised(a: Observation, b: Observation)
  {
    b == a.(firstTurn := a.firstTurn.(read := b.firstTurn.read)) && a.firstTurn.read <= b.firstTurn.read
  }

  predicate AllRaised(a: seq<Observation>, b: seq<Observation>)
  {
    |a| == |b| && forall i :: 0 <= i < |a| ==> Raised(a[i], b[i])
  }

  lemma ShareGrows(r: real, q: real, k: real)
    requires 0.0 <= r <= q && k >= 0.0 && r + k > 0.0
    ensures r / (r + k) <= q / (q + k)
  {
    assert r * k <= q * k;
    assert r * (q + k) <= q * (r + k);
    var x := r / (r + k);
    assert x * (r + k) == r;
    assert x * (r + k) * (q + k) <= q * (r + k);
    assert (x * (q + k) - q) * (r + k) <= 0.0;
    assert x * (q + k) <= q;
  }

  lemma ReusedStays(a: Observation, b: Observation, cfg: Config)
    requires Raised(a, b) && Reused(a, cfg)
    ensures Reused(b, cfg)
  {
    var u, v := a.firstTurn, b.firstTurn;
    if u.read + u.creation + u.input > 0 {
      ShareGrows(u.read as real, v.read as real, (u.creation + u.input) as real);
    } else {
      assert Share(v) >= 0.0;
    }
  }

  lemma {:induction false} InsertRaised(a: seq<Observation>, b: seq<Observation>, x: Observation, y: Observation)
    requires AllRaised(a, b) && Raised(x, y)
    ensures AllRaised(Insert(a, x), Insert(b, y))
    decreases |a|
  {
    if a != [] && Before(x, a[|a| - 1]) { InsertRaised(a[..|a| - 1], b[..|b| - 1], x, y); }
  }

  lemma {:induction false} OrderedRaised(a: seq<Observation>, b: seq<Observation>)
    requires AllRaised(a, b)
    ensures AllRaised(Ordered(a), Ordered(b))
    decreases |a|
  {
    if a != [] {
      OrderedRaised(a[..|a| - 1], b[..|b| - 1]);
      InsertRaised(Ordered(a[..|a| - 1]), Ordered(b[..|b| - 1]), a[|a| - 1], b[|b| - 1]);
    }
  }

  lemma {:induction false} InRepoRaised(a: seq<Observation>, b: seq<Observation>, repo: string)
    requires AllRaised(a, b)
    ensures AllRaised(InRepo(a, repo), InRepo(b, repo))
    decreases |a|
  {
    if a != [] { InRepoRaised(a[..|a| - 1], b[..|b| - 1], repo); }
  }

  lemma {:induction false} ReposRaised(a: seq<Observation>, b: seq<Observation>)
    requires AllRaised(a, b)
    ensures Repos(a) == Repos(b)
    decreases |a|
  {
    if a != [] { ReposRaised(a[..|a| - 1], b[..|b| - 1]); }
  }

  lemma {:induction false} FewerCold(a: seq<Observation>, b: seq<Observation>, cfg: Config)
    requires AllRaised(a, b)
    ensures ColdCount(b, cfg) <= ColdCount(a, cfg)
    decreases |a|
  {
    if |a| > 1 {
      FewerCold(a[..|a| - 1], b[..|b| - 1], cfg);
      if Reused(a[|a| - 1], cfg) { ReusedStays(a[|a| - 1], b[|b| - 1], cfg); }
    }
  }

  lemma QuotientGrows(m: real, n: real, d: real)
    requires m <= n && d > 0.0
    ensures m / d <= n / d
  {
  }

  lemma FiresLess(a: seq<Observation>, b: seq<Observation>, cfg: Config)
    requires AllRaised(a, b) && Fires(b, cfg)
    ensures Fires(a, cfg)
  {
    FewerCold(a, b, cfg);
    if |a| > 1 { QuotientGrows(ColdCount(b, cfg) as real, ColdCount(a, cfg) as real, (|a| - 1) as real); }
  }

  /** Raising turn-1 cache reads, whatever else stays, turns no quiet repo into a firing one. */
  lemma RaisingReadsKeepsQuiet(a: seq<Observation>, b: seq<Observation>, cfg: Config, k: nat)
    requires AllRaised(a, b) && k < |Report(b, cfg)|
    ensures |Report(a, cfg)| == |Report(b, cfg)| && Report(a, cfg)[k].repo == Report(b, cfg)[k].repo
    ensures !Report(a, cfg)[k].fired ==> !Report(b, cfg)[k].fired
  {
    ReposRaised(a, b);
    var repo := Repos(a)[k];
    InRepoRaised(a, b, repo);
    OrderedRaised(InRepo(a, repo), InRepo(b, repo));
    ReportAt(a, Repos(a), k, cfg);
    ReportAt(b, Repos(b), k, cfg);
    if Report(b, cfg)[k].fired { FiresLess(Ordered(InRepo(a, repo)), Ordered(InRepo(b, repo)), cfg); }
  }
}
