/**
 * The feature-file reader: a one-pass line machine that inlines backgrounds, and its meaning, which
 * is to parse a feature tree and prepend the backgrounds in scope to every scenario.
 */
module Gherkin {
  import opened Text
  import opened Sorting

  datatype Step = Step(keyword: string, text: string, line: nat)

  datatype Rule = Rule(name: string, line: nat, tags: seq<string>)

  datatype Scenario = Scenario(name: string, line: nat, tags: seq<string>, rule: Option<Rule>, steps: seq<Step>)

  datatype Feature = Feature(name: string, tags: seq<string>, description: string, scenarios: seq<Scenario>)

  // ----- Lines -----

  datatype Token =
    | Skip
    | Tags(tags: seq<string>)
    | FeatureHead(name: string)
    | RuleHead(name: string)
    | BackgroundHead
    | ScenarioHead(name: string)
    | StepLine(keyword: string, text: string)
    | Prose(text: string)

  /** White-space separated fields. */
  function Fields(s: string): seq<string>
  {
    FieldsFrom(s, "")
  }

  /** The fields of s when `word` has just been read before it. */
  function FieldsFrom(s: string, word: string): seq<string>
    decreases |s|
  {
    if s == [] then (if word == "" then [] else [word])
    else if IsSpace(s[0]) then (if word == "" then [] else [word]) + FieldsFrom(s[1..], "")
    else FieldsFrom(s[1..], word + [s[0]])
  }

  function OnlyTags(fields: seq<string>): seq<string>
  {
    if fields == [] then []
    else (if "@" <= fields[0] then [fields[0]] else []) + OnlyTags(fields[1..])
  }

  lemma {:induction false} OnlyTagsConcat(a: seq<string>, b: seq<string>)
    ensures OnlyTags(a + b) == OnlyTags(a) + OnlyTags(b)
  {
    if a == [] {
      assert a + b == b;
    } else {
      assert (a + b)[1..] == a[1..] + b;
      OnlyTagsConcat(a[1..], b);
    }
  }

  function TagPlaces(words: seq<string>): set<nat>
  {
    set i: nat | i < |words| && "@" <= words[i]
  }

  /** The words that start with an at sign, as often as they occur and in that order. */
  lemma {:induction false} OnlyTagsPick(words: seq<string>)
    ensures Picks(words, TagPlaces(words), OnlyTags(words))
  {
    if words == [] {
      assert TagPlaces(words) == {};
      PicksNone(words);
    } else {
      var n := |words| - 1;
      var before, after, taken := TagPlaces(words[..n]), TagPlaces(words), "@" <= words[n];
      OnlyTagsPick(words[..n]);
      assert words == words[..n] + [words[n]];
      OnlyTagsConcat(words[..n], [words[n]]);
      assert after == if taken then before + {n} else before;
      PicksStep(words[..n], words[n], before, after, taken, OnlyTags(words[..n]));
      var rest := OnlyTags(words[..n]);
      assert OnlyTags(words) == if taken then rest + [words[n]] else rest;
    }
  }

  method ParseTags(raw: string) returns (tags: seq<string>)
    ensures tags == OnlyTags(Fields(raw)) && Picks(Fields(raw), TagPlaces(Fields(raw)), tags)
  {
    var fields := Fields(raw);
    tags := [];
    for i := 0 to |fields|
      invariant tags + OnlyTags(fields[i..]) == OnlyTags(fields)
    {
      if "@" <= fields[i] {
        tags := tags + [fields[i]];
      }
    }
    assert fields[|fields|..] == [] && tags == OnlyTags(fields);
    OnlyTagsPick(fields);
  }

  const KEYWORDS := ["Given", "When", "Then", "And", "But"]

  /** The first step keyword, followed by a blank, that starts the line. */
  function KeywordFrom(raw: string, k: nat): Option<string>
    requires k <= |KEYWORDS|
    decreases |KEYWORDS| - k
  {
    if k == |KEYWORDS| then None
    else if KEYWORDS[k] + " " <= raw then Some(KEYWORDS[k])
    else KeywordFrom(raw, k + 1)
  }

  function SplitStep(raw: string): Option<(string, string)>
  {
    match KeywordFrom(raw, 0)
    case Some(kw) => if |kw| < |raw| then Some((kw, TrimSpace(raw[|kw| + 1..]))) else None
    case None => None
  }

  function After(raw: string, head: string): string
    requires head <= raw
  {
    TrimSpace(raw[|head|..])
  }

  /** What a trimmed line is; the order of the tests is the reader's. */
  function Classify(raw: string): Token
  {
    if raw == "" || "#" <= raw then Skip
    else if "@" <= raw then Tags(OnlyTags(Fields(raw)))
    else if "Feature:" <= raw then FeatureHead(After(raw, "Feature:"))
    else if "Rule:" <= raw then RuleHead(After(raw, "Rule:"))
    else if "Background:" <= raw then BackgroundHead
    else if "Scenario Outline:" <= raw then ScenarioHead(After(raw, "Scenario Outline:"))
    else if "Scenario:" <= raw then ScenarioHead(After(raw, "Scenario:"))
    else StepOrProse(raw)
  }

  function StepOrProse(raw: string): Token
  {
    match SplitStep(raw)
    case Some(s) => StepLine(s.0, s.1)
    case None => Prose(raw)
  }

  // ----- The line machine -----

  /** Where a step line goes; OnScenario is the scenario read last. */
  datatype Target = Nowhere | OnFeature | OnRule | OnScenario

  datatype Machine = Machine(name: string, tags: seq<string>, pending: seq<string>, prose: seq<string>, inProse: bool,
                             featureBg: seq<Step>, ruleBg: seq<Step>, rule: Option<Rule>,
                             scenarios: seq<Scenario>, target: Target)

  const IDLE := Machine("", [], [], [], false, [], [], None, [], Nowhere)

  function AddStep(m: Machine, step: Step): Machine
  {
    match m.target
    case Nowhere => m
    case OnFeature => m.(featureBg := m.featureBg + [step])
    case OnRule => m.(ruleBg := m.ruleBg + [step])
    case OnScenario =>
      if m.scenarios == [] then m
      else
        var last := m.scenarios[|m.scenarios| - 1];
        m.(scenarios := m.scenarios[|m.scenarios| - 1 := last.(steps := last.steps + [step])])
  }

  function Base(m: Machine): seq<Step>
  {
    m.featureBg + (if m.rule.Some? then m.ruleBg else [])
  }

  function Apply(m: Machine, t: Token, line: nat): Machine
  {
    match t
    case Skip => m
    case Tags(tags) => m.(pending := m.pending + tags, inProse := false)
    case FeatureHead(name) => m.(name := name, tags := m.pending, pending := [], inProse := true, target := Nowhere)
    case RuleHead(name) =>
      m.(rule := Some(Rule(name, line, m.pending)), pending := [], ruleBg := [], target := Nowhere, inProse := false)
    case BackgroundHead =>
      if m.rule.Some? then m.(ruleBg := [], target := OnRule, inProse := false)
      else m.(featureBg := [], target := OnFeature, inProse := false)
    case ScenarioHead(name) =>
      m.(scenarios := m.scenarios + [Scenario(name, line, m.pending, m.rule, Base(m))],
         pending := [], target := OnScenario, inProse := false)
    case StepLine(keyword, text) => AddStep(m, Step(keyword, text, line)).(inProse := false)
    case Prose(text) => if m.inProse then m.(prose := m.prose + [text]) else m
  }

  /** Line numbers start at 1; `from` lines have been read before. */
  function ApplyAll(m: Machine, tokens: seq<Token>, from: nat): Machine
    decreases |tokens|
  {
    if tokens == [] then m
    else ApplyAll(Apply(m, tokens[0], from + 1), tokens[1..], from + 1)
  }

  function Tokens(lines: seq<string>): seq<Token>
  {
    seq(|lines|, i requires 0 <= i < |lines| => Classify(TrimSpace(lines[i])))
  }

  function Finish(m: Machine): Feature
  {
    Feature(m.name, m.tags, if m.prose == [] then "" else TrimSpace(Unlines(m.prose)), m.scenarios)
  }

  /** What the reader makes of a file. */
  function Reading(lines: seq<string>): Feature
  {
    Finish(ApplyAll(IDLE, Tokens(lines), 0))
  }

  lemma {:induction false} ApplyConcat(m: Machine, a: seq<Token>, b: seq<Token>, from: nat)
    ensures ApplyAll(m, a + b, from) == ApplyAll(ApplyAll(m, a, from), b, from + |a|)
    decreases |a|
  {
    if a == [] {
      assert a + b == b;
    } else {
      assert (a + b)[1..] == a[1..] + b;
      ApplyConcat(Apply(m, a[0], from + 1), a[1..], b, from + 1);
    }
  }

  // ----- The reader on the heap -----

  /** A growable list of steps that the step pointer can refer to. */
  class StepList {
    var steps: seq<Step>

    constructor (steps: seq<Step>)
      ensures this.steps == steps
    {
      this.steps := steps;
    }
  }

  ghost function Filled(heads: seq<Scenario>, bodies: seq<StepList>): seq<Scenario>
    requires |heads| == |bodies|
    reads bodies
  {
    seq(|heads|, i requires 0 <= i < |heads| reads bodies => heads[i].(steps := bodies[i].steps))
  }

  /** The reader's variables. `stepTarget` aliases a background or the scenario read last. */
  class Reader {
    const featureBg: StepList
    const ruleBg: StepList
    var name: string
    var tags: seq<string>
    var pending: seq<string>
    var prose: seq<string>
    var inProse: bool
    var rule: Option<Rule>
    var heads: seq<Scenario>
    var bodies: seq<StepList>
    var stepTarget: StepList?

    ghost predicate Separate()
      reads this
    {
      && featureBg != ruleBg && featureBg !in bodies && ruleBg !in bodies
      && (forall i, j :: 0 <= i < j < |bodies| ==> bodies[i] != bodies[j])
      && |heads| == |bodies|
      && (stepTarget == null || stepTarget == featureBg || stepTarget == ruleBg
          || (bodies != [] && stepTarget == bodies[|bodies| - 1]))
    }

    /** The machine state that the variables and the lists they alias stand for. */
    ghost function State(): Machine
      reads this, featureBg, ruleBg, bodies
      requires Separate()
    {
      Machine(name, tags, pending, prose, inProse, featureBg.steps, ruleBg.steps, rule,
              Filled(heads, bodies),
              if stepTarget == null then Nowhere
              else if stepTarget == featureBg then OnFeature
              else if stepTarget == ruleBg then OnRule else OnScenario)
    }

    constructor ()
      ensures Separate() && State() == IDLE
      ensures fresh(featureBg) && fresh(ruleBg) && bodies == []
    {
      featureBg := new StepList([]);
      ruleBg := new StepList([]);
      name, tags, pending, prose, inProse := "", [], [], [], false;
      rule, heads, bodies, stepTarget := None, [], [], null;
    }

    method OpenScenario(title: string, line: nat)
      requires Separate()
      modifies this
      ensures Separate() && State() == Apply(old(State()), ScenarioHead(title), line)
      ensures forall b :: b in bodies && b !in old(bodies) ==> fresh(b)
    {
      ghost var before := State();
      var base := featureBg.steps;
      if rule.Some? {
        base := base + ruleBg.steps;
      }
      var body := new StepList(base);
      heads := heads + [Scenario(title, line, pending, rule, [])];
      bodies := bodies + [body];
      pending := [];
      stepTarget := body;
      inProse := false;
      assert base == Base(before);
      forall i | 0 <= i < |before.scenarios|
        ensures Filled(heads, bodies)[i] == before.scenarios[i]
      {
        assert bodies[i] == old(bodies)[i];
      }
      assert Filled(heads, bodies) == before.scenarios + [Scenario(title, line, before.pending, rule, base)];
    }

    method AppendStep(step: Step)
      requires Separate()
      modifies stepTarget
      ensures Separate() && State() == AddStep(old(State()), step)
      ensures bodies == old(bodies)
    {
      ghost var before := State();
      if stepTarget != null {
        stepTarget.steps := stepTarget.steps + [step];
        assert Filled(heads, bodies) == AddStep(before, step).scenarios;
      }
    }

    method OpenFeature(title: string, line: nat)
      requires Separate()
      modifies this
      ensures Separate() && State() == Apply(old(State()), FeatureHead(title), line)
      ensures bodies == old(bodies)
    {
      name := title;
      tags, pending, inProse, stepTarget := pending, [], true, null;
    }

    method OpenRule(title: string, line: nat)
      requires Separate()
      modifies this, ruleBg
      ensures Separate() && State() == Apply(old(State()), RuleHead(title), line)
      ensures bodies == old(bodies)
    {
      rule := Some(Rule(title, line, pending));
      pending := [];
      ruleBg.steps := [];
      stepTarget, inProse := null, false;
      assert Filled(heads, bodies) == old(Filled(heads, bodies));
    }

    method OpenBackground(line: nat)
      requires Separate()
      modifies this, featureBg, ruleBg
      ensures Separate() && State() == Apply(old(State()), BackgroundHead, line)
      ensures bodies == old(bodies)
    {
      if rule.Some? {
        ruleBg.steps := [];
        stepTarget := ruleBg;
      } else {
        featureBg.steps := [];
        stepTarget := featureBg;
      }
      inProse := false;
      assert Filled(heads, bodies) == old(Filled(heads, bodies));
    }

    method AddTags(more: seq<string>, line: nat)
      requires Separate()
      modifies this
      ensures Separate() && State() == Apply(old(State()), Tags(more), line)
      ensures bodies == old(bodies)
    {
      pending := pending + more;
      inProse := false;
    }

    /** One trimmed line. */
    method Line(raw: string, line: nat)
      requires Separate()
      modifies this, featureBg, ruleBg, bodies
      ensures Separate() && State() == Apply(old(State()), Classify(raw), line)
      ensures forall b :: b in bodies && b !in old(bodies) ==> fresh(b)
    {
      if raw == "" || "#" <= raw {
      } else if "@" <= raw {
        var more := ParseTags(raw);
        AddTags(more, line);
      } else if "Feature:" <= raw {
        OpenFeature(TrimSpace(raw[|"Feature:"|..]), line);
      } else if "Rule:" <= raw {
        OpenRule(TrimSpace(raw[|"Rule:"|..]), line);
      } else if "Background:" <= raw {
        OpenBackground(line);
      } else if "Scenario Outline:" <= raw {
        OpenScenario(TrimSpace(raw[|"Scenario Outline:"|..]), line);
      } else if "Scenario:" <= raw {
        OpenScenario(TrimSpace(raw[|"Scenario:"|..]), line);
      } else {
        Otherwise(raw, line);
      }
    }

    method Otherwise(raw: string, line: nat)
      requires Separate()
      modifies this, stepTarget
      ensures Separate() && State() == Apply(old(State()), StepOrProse(raw), line)
      ensures bodies == old(bodies)
    {
      match SplitStep(raw) {
        case Some(s) =>
          AppendStep(Step(s.0, s.1, line));
          inProse := false;
        case None =>
          if inProse {
            prose := prose + [raw];
          }
      }
    }

    /** The feature that the variables hold once every line is read. */
    method Result() returns (f: Feature)
      requires Separate()
      ensures f == Finish(State())
    {
      var scenarios: seq<Scenario> := [];
      for i := 0 to |heads|
        invariant scenarios == Filled(heads, bodies)[..i]
      {
        scenarios := scenarios + [heads[i].(steps := bodies[i].steps)];
      }
      f := Feature(name, tags, if prose == [] then "" else TrimSpace(Unlines(prose)), scenarios);
    }
  }

  lemma {:induction false} ApplyLast(m: Machine, tokens: seq<Token>, t: Token, from: nat)
    ensures ApplyAll(m, tokens + [t], from) == Apply(ApplyAll(m, tokens, from), t, from + |tokens| + 1)
  {
    ApplyConcat(m, tokens, [t], from);
  }

  lemma OneMoreToken(tokens: seq<Token>, i: nat)
    requires i < |tokens|
    ensures ApplyAll(IDLE, tokens[..i + 1], 0) == Apply(ApplyAll(IDLE, tokens[..i], 0), tokens[i], i + 1)
  {
    ApplyLast(IDLE, tokens[..i], tokens[i], 0);
    assert tokens[..i + 1] == tokens[..i] + [tokens[i]];
  }

  method ParseFeature(lines: seq<string>) returns (f: Feature)
    ensures f == Reading(lines)
  {
    var r := new Reader();
    for i := 0 to |lines|
      invariant fresh(r) && fresh(r.featureBg) && fresh(r.ruleBg)
      invariant forall k :: 0 <= k < |r.bodies| ==> fresh(r.bodies[k])
      invariant r.Separate() && r.State() == ApplyAll(IDLE, Tokens(lines)[..i], 0)
    {
      OneMoreToken(Tokens(lines), i);
      ghost var before := r.bodies;
      r.Line(TrimSpace(lines[i]), i + 1);
      assert forall b :: b in before ==> fresh(b);
      assert forall k :: 0 <= k < |r.bodies| ==> r.bodies[k] in r.bodies;
    }
    assert Tokens(lines)[..|lines|] == Tokens(lines);
    f := r.Result();
  }
}
