/** Feature trees: their printed form, their flattened meaning, and the reader's agreement with both. */
module FeatureTree {
  import opened Text
  import opened Gherkin

  datatype StepText = StepText(keyword: string, text: string)

  /** Tags come one line or several above what they mark. */
  datatype ScenarioNode = ScenarioNode(tags: seq<seq<string>>, name: string, steps: seq<StepText>)

  datatype RuleNode = RuleNode(tags: seq<seq<string>>, name: string, background: seq<StepText>,
                               scenarios: seq<ScenarioNode>)

  datatype FeatureNode = FeatureNode(tags: seq<seq<string>>, name: string, prose: seq<string>, background: seq<StepText>,
                                     scenarios: seq<ScenarioNode>, rules: seq<RuleNode>)

  // ----- Printing -----

  function TagTokens(tags: seq<seq<string>>): seq<Token>
  {
    seq(|tags|, i requires 0 <= i < |tags| => Tags(tags[i]))
  }

  function AllTags(tags: seq<seq<string>>): seq<string>
  {
    if tags == [] then [] else AllTags(tags[..|tags| - 1]) + tags[|tags| - 1]
  }

  function StepTokens(steps: seq<StepText>): seq<Token>
  {
    seq(|steps|, i requires 0 <= i < |steps| => StepLine(steps[i].keyword, steps[i].text))
  }

  function BackgroundTokens(steps: seq<StepText>): seq<Token>
  {
    if steps == [] then [] else [BackgroundHead] + StepTokens(steps)
  }

  function ScenarioTokens(n: ScenarioNode): seq<Token>
  {
    TagTokens(n.tags) + [ScenarioHead(n.name)] + StepTokens(n.steps)
  }

  function ScenariosTokens(ns: seq<ScenarioNode>): seq<Token>
  {
    if ns == [] then [] else ScenarioTokens(ns[0]) + ScenariosTokens(ns[1..])
  }

  function RuleTokens(n: RuleNode): seq<Token>
  {
    TagTokens(n.tags) + [RuleHead(n.name)] + BackgroundTokens(n.background) + ScenariosTokens(n.scenarios)
  }

  function RulesTokens(ns: seq<RuleNode>): seq<Token>
  {
    if ns == [] then [] else RuleTokens(ns[0]) + RulesTokens(ns[1..])
  }

  function ProseTokens(lines: seq<string>): seq<Token>
  {
    seq(|lines|, i requires 0 <= i < |lines| => Prose(lines[i]))
  }

  function FeatureTokens(n: FeatureNode): seq<Token>
  {
    TagTokens(n.tags) + [FeatureHead(n.name)] + ProseTokens(n.prose) + BackgroundTokens(n.background)
    + ScenariosTokens(n.scenarios) + RulesTokens(n.rules)
  }

  // ----- Flattening: every scenario gets the backgrounds in scope, then its own steps -----

  /** The steps as they stand when the first one is printed on line `line`. */
  function Located(steps: seq<StepText>, line: nat): seq<Step>
  {
    seq(|steps|, i requires 0 <= i < |steps| => Step(steps[i].keyword, steps[i].text, line + i))
  }

  function FlatScenarios(ns: seq<ScenarioNode>, from: nat, rule: Option<Rule>, background: seq<Step>): seq<Scenario>
  {
    if ns == [] then []
    else
      var head := from + |TagTokens(ns[0].tags)| + 1;
      [Scenario(ns[0].name, head, AllTags(ns[0].tags), rule, background + Located(ns[0].steps, head + 1))]
      + FlatScenarios(ns[1..], from + |ScenarioTokens(ns[0])|, rule, background)
  }

  function FlatRule(n: RuleNode, from: nat, background: seq<Step>): seq<Scenario>
  {
    var head := from + |TagTokens(n.tags)| + 1;
    FlatScenarios(n.scenarios, head + |BackgroundTokens(n.background)|, Some(Rule(n.name, head, AllTags(n.tags))),
                  background + Located(n.background, head + 2))
  }

  function FlatRules(ns: seq<RuleNode>, from: nat, background: seq<Step>): seq<Scenario>
  {
    if ns == [] then []
    else FlatRule(ns[0], from, background) + FlatRules(ns[1..], from + |RuleTokens(ns[0])|, background)
  }

  function Flatten(n: FeatureNode): Feature
  {
    var body := |TagTokens(n.tags)| + 1 + |n.prose|;
    var background := Located(n.background, body + 2);
    var scenarios := body + |BackgroundTokens(n.background)|;
    Feature(n.name, AllTags(n.tags), if n.prose == [] then "" else TrimSpace(Unlines(n.prose)),
            FlatScenarios(n.scenarios, scenarios, None, background)
            + FlatRules(n.rules, scenarios + |ScenariosTokens(n.scenarios)|, background))
  }

  // ----- The machine on the printed tokens -----

  lemma {:induction false} ReadProse(m: Machine, lines: seq<string>, from: nat)
    requires m.inProse
    ensures ApplyAll(m, ProseTokens(lines), from) == m.(prose := m.prose + lines)
    decreases |lines|
  {
    if lines != [] {
      var m1 := m.(prose := m.prose + [lines[0]]);
      assert ProseTokens(lines)[1..] == ProseTokens(lines[1..]);
      ReadProse(m1, lines[1..], from + 1);
      assert m.prose + lines == m1.prose + lines[1..];
    } else {
      assert m.prose + lines == m.prose;
    }
  }

  /** The machine after some steps went to whatever the step pointer aliases. */
  function WithSteps(m: Machine, steps: seq<Step>): Machine
  {
    if steps == [] then m
    else AddStep(WithSteps(m, steps[..|steps| - 1]), steps[|steps| - 1]).(inProse := false)
  }

  lemma {:induction false} ReadSteps(m: Machine, steps: seq<StepText>, from: nat)
    ensures ApplyAll(m, StepTokens(steps), from) == WithSteps(m, Located(steps, from + 1))
  {
    if steps != [] {
      var init, last := steps[..|steps| - 1], steps[|steps| - 1];
      ReadSteps(m, init, from);
      assert StepTokens(steps) == StepTokens(init) + [StepLine(last.keyword, last.text)];
      ApplyLast(m, StepTokens(init), StepLine(last.keyword, last.text), from);
      assert Located(steps, from + 1)[..|init|] == Located(init, from + 1);
    }
  }

  lemma {:induction false} StepsOnFeature(m: Machine, steps: seq<Step>)
    requires !m.inProse && m.target.OnFeature?
    ensures WithSteps(m, steps) == m.(featureBg := m.featureBg + steps)
  {
    if steps == [] {
      assert m.featureBg + steps == m.featureBg;
    } else {
      var init, last := steps[..|steps| - 1], steps[|steps| - 1];
      StepsOnFeature(m, init);
      assert m.featureBg + steps == m.featureBg + init + [last];
    }
  }

  lemma {:induction false} StepsOnRule(m: Machine, steps: seq<Step>)
    requires !m.inProse && m.target.OnRule?
    ensures WithSteps(m, steps) == m.(ruleBg := m.ruleBg + steps)
  {
    if steps == [] {
      assert m.ruleBg + steps == m.ruleBg;
    } else {
      var init, last := steps[..|steps| - 1], steps[|steps| - 1];
      StepsOnRule(m, init);
      assert m.ruleBg + steps == m.ruleBg + init + [last];
    }
  }

  lemma {:induction false} StepsOnScenario(m: Machine, before: seq<Scenario>, sc: Scenario, steps: seq<Step>)
    requires m.target.OnScenario? && !m.inProse && m.scenarios == before + [sc]
    ensures WithSteps(m, steps) == m.(scenarios := before + [sc.(steps := sc.steps + steps)])
  {
    if steps != [] {
      var init, last := steps[..|steps| - 1], steps[|steps| - 1];
      StepsOnScenario(m, before, sc, init);
      assert sc.steps + steps == sc.steps + init + [last];
      var part := before + [sc.(steps := sc.steps + init)];
      assert part[|part| - 1 := sc.(steps := sc.steps + steps)] == before + [sc.(steps := sc.steps + steps)];
    } else {
      assert sc.steps + steps == sc.steps;
    }
  }

  lemma {:induction false} ReadTags(m: Machine, tags: seq<seq<string>>, from: nat)
    requires m.pending == []
    ensures ApplyAll(m, TagTokens(tags), from) == m.(pending := AllTags(tags), inProse := m.inProse && tags == [])
  {
    if tags != [] {
      var init, last := tags[..|tags| - 1], tags[|tags| - 1];
      ReadTags(m, init, from);
      assert TagTokens(tags) == TagTokens(init) + [Tags(last)];
      ApplyLast(m, TagTokens(init), Tags(last), from);
    }
  }

  /** A background goes to the rule that is open, or to the feature. */
  lemma ReadBackground(m: Machine, steps: seq<StepText>, from: nat)
    requires if m.rule.Some? then m.ruleBg == [] else m.featureBg == []
    ensures var located, y := Located(steps, from + 2), ApplyAll(m, BackgroundTokens(steps), from);
      && y.featureBg == (if m.rule.None? then located else m.featureBg)
      && y.ruleBg == (if m.rule.Some? then located else m.ruleBg)
      && y == m.(featureBg := y.featureBg, ruleBg := y.ruleBg, target := y.target, inProse := y.inProse)
  {
    if steps != [] {
      var m1 := Apply(m, BackgroundHead, from + 1);
      assert BackgroundTokens(steps)[1..] == StepTokens(steps);
      ReadSteps(m1, steps, from + 1);
      if m1.target.OnRule? { StepsOnRule(m1, Located(steps, from + 2)); } else { StepsOnFeature(m1, Located(steps, from + 2)); }
      assert [] + Located(steps, from + 2) == Located(steps, from + 2);
    } else {
      assert Located(steps, from + 2) == [];
    }
  }

  lemma ReadScenarioHead(m: Machine, n: ScenarioNode, from: nat)
    requires m.pending == []
    ensures var head := from + |TagTokens(n.tags)| + 1;
      ApplyAll(m, TagTokens(n.tags) + [ScenarioHead(n.name)], from) ==
      m.(scenarios := m.scenarios + [Scenario(n.name, head, AllTags(n.tags), m.rule, Base(m))],
         target := OnScenario, inProse := false)
  {
    ReadTags(m, n.tags, from);
    ApplyLast(m, TagTokens(n.tags), ScenarioHead(n.name), from);
  }

  /** One scenario: appended with the backgrounds in scope and its steps; nothing earlier changes. */
  lemma ReadScenario(m: Machine, n: ScenarioNode, from: nat)
    requires m.pending == []
    ensures var head := from + |TagTokens(n.tags)| + 1;
      ApplyAll(m, ScenarioTokens(n), from) ==
      m.(scenarios := m.scenarios + [Scenario(n.name, head, AllTags(n.tags), m.rule, Base(m) + Located(n.steps, head + 1))],
         target := OnScenario, inProse := false)
  {
    var first, head := TagTokens(n.tags) + [ScenarioHead(n.name)], from + |TagTokens(n.tags)| + 1;
    ReadScenarioHead(m, n, from);
    var m2 := ApplyAll(m, first, from);
    ApplyConcat(m, first, StepTokens(n.steps), from);
    ReadSteps(m2, n.steps, head);
    StepsOnScenario(m2, m.scenarios, Scenario(n.name, head, AllTags(n.tags), m.rule, Base(m)), Located(n.steps, head + 1));
  }

  /** The fields that later lines depend on, once the prose is over. */
  predicate SameUpTo(a: Machine, b: Machine)
  {
    a == b.(target := a.target, inProse := a.inProse)
  }

  lemma {:induction false} ReadScenarios(m: Machine, ns: seq<ScenarioNode>, from: nat)
    requires m.pending == []
    ensures SameUpTo(ApplyAll(m, ScenariosTokens(ns), from),
                     m.(scenarios := m.scenarios + FlatScenarios(ns, from, m.rule, Base(m))))
    decreases |ns|
  {
    if ns == [] {
      assert m.scenarios + [] == m.scenarios;
    } else {
      ReadScenario(m, ns[0], from);
      var m1 := ApplyAll(m, ScenarioTokens(ns[0]), from);
      ApplyConcat(m, ScenarioTokens(ns[0]), ScenariosTokens(ns[1..]), from);
      ReadScenarios(m1, ns[1..], from + |ScenarioTokens(ns[0])|);
      var rest := FlatScenarios(ns[1..], from + |ScenarioTokens(ns[0])|, m.rule, Base(m));
      assert m1.scenarios + rest == m.scenarios + FlatScenarios(ns, from, m.rule, Base(m));
    }
  }

  /** From m to y some scenarios were added, and nothing that stays fixed between rules changed. */
  predicate Added(m: Machine, y: Machine, scenarios: seq<Scenario>)
  {
    && y.name == m.name && y.tags == m.tags && y.prose == m.prose && y.featureBg == m.featureBg
    && y.scenarios == m.scenarios + scenarios
  }

  lemma ReadRuleHead(m: Machine, n: RuleNode, from: nat)
    requires m.pending == []
    ensures var head := from + |TagTokens(n.tags)| + 1;
      var y := ApplyAll(m, TagTokens(n.tags) + [RuleHead(n.name)], from);
      && Added(m, y, []) && y.pending == [] && y.rule == Some(Rule(n.name, head, AllTags(n.tags))) && y.ruleBg == []
  {
    ReadTags(m, n.tags, from);
    ApplyLast(m, TagTokens(n.tags), RuleHead(n.name), from);
  }

  /** The tokens before a rule's first scenario. */
  function RuleIntro(n: RuleNode): seq<Token>
  {
    TagTokens(n.tags) + [RuleHead(n.name)] + BackgroundTokens(n.background)
  }

  lemma ReadRuleIntro(m: Machine, n: RuleNode, from: nat)
    requires m.pending == []
    ensures var head := from + |TagTokens(n.tags)| + 1;
      var y := ApplyAll(m, RuleIntro(n), from);
      && Added(m, y, []) && y.pending == [] && y.rule == Some(Rule(n.name, head, AllTags(n.tags)))
      && y.ruleBg == Located(n.background, head + 2)
  {
    var t2 := TagTokens(n.tags) + [RuleHead(n.name)];
    ReadRuleHead(m, n, from);
    ApplyConcat(m, t2, BackgroundTokens(n.background), from);
    ReadBackground(ApplyAll(m, t2, from), n.background, from + |t2|);
  }

  lemma AddedScenarios(m: Machine, y: Machine, z: Machine, scenarios: seq<Scenario>)
    requires Added(m, y, []) && SameUpTo(z, y.(scenarios := y.scenarios + scenarios))
    ensures z.pending == y.pending && Added(m, z, scenarios)
  {
    assert m.scenarios + [] == m.scenarios;
  }

  lemma RuleInParts(n: RuleNode)
    ensures RuleTokens(n) == RuleIntro(n) + ScenariosTokens(n.scenarios)
    ensures |RuleIntro(n)| == |TagTokens(n.tags)| + 1 + |BackgroundTokens(n.background)|
  {
  }

  /** The machine after the intro of a rule. */
  ghost predicate IntroRead(m: Machine, y: Machine, n: RuleNode, from: nat)
  {
    var head := from + |TagTokens(n.tags)| + 1;
    && Added(m, y, []) && y.pending == [] && y.rule == Some(Rule(n.name, head, AllTags(n.tags)))
    && y.ruleBg == Located(n.background, head + 2)
  }

  lemma FlatRuleInParts(m: Machine, y: Machine, n: RuleNode, from: nat)
    requires IntroRead(m, y, n, from)
    ensures FlatScenarios(n.scenarios, from + |RuleIntro(n)|, y.rule, Base(y)) == FlatRule(n, from, m.featureBg)
  {
    RuleInParts(n);
  }

  lemma ReadRuleBody(m: Machine, y: Machine, n: RuleNode, from: nat)
    requires IntroRead(m, y, n, from)
    ensures var z := ApplyAll(y, ScenariosTokens(n.scenarios), from + |RuleIntro(n)|);
      z.pending == [] && Added(m, z, FlatRule(n, from, m.featureBg))
  {
    ReadScenarios(y, n.scenarios, from + |RuleIntro(n)|);
    FlatRuleInParts(m, y, n, from);
    AddedScenarios(m, y, ApplyAll(y, ScenariosTokens(n.scenarios), from + |RuleIntro(n)|), FlatRule(n, from, m.featureBg));
  }

  lemma ReadRule(m: Machine, n: RuleNode, from: nat)
    requires m.pending == []
    ensures var y := ApplyAll(m, RuleTokens(n), from); y.pending == [] && Added(m, y, FlatRule(n, from, m.featureBg))
  {
    ReadRuleIntro(m, n, from);
    RuleInParts(n);
    ApplyConcat(m, RuleIntro(n), ScenariosTokens(n.scenarios), from);
    ReadRuleBody(m, ApplyAll(m, RuleIntro(n), from), n, from);
  }

  lemma AddedTwice(m: Machine, y: Machine, z: Machine, a: seq<Scenario>, b: seq<Scenario>)
    requires Added(m, y, a) && Added(y, z, b)
    ensures Added(m, z, a + b)
  {
    assert m.scenarios + a + b == m.scenarios + (a + b);
  }

  lemma AfterRule(m: Machine, n: RuleNode, from: nat)
    requires m.pending == []
    ensures var y := ApplyAll(m, RuleTokens(n), from); y.pending == [] && y.featureBg == m.featureBg
  {
    ReadRule(m, n, from);
  }

  /** The machine adds these scenarios on these tokens. */
  ghost predicate Reads(m: Machine, tokens: seq<Token>, from: nat, flat: seq<Scenario>)
  {
    Added(m, ApplyAll(m, tokens, from), flat)
  }

  lemma ReadsOn(m: Machine, first: seq<Token>, rest: seq<Token>, from: nat, a: seq<Scenario>, b: seq<Scenario>)
    requires Reads(m, first, from, a) && Reads(ApplyAll(m, first, from), rest, from + |first|, b)
    ensures Reads(m, first + rest, from, a + b)
  {
    ApplyConcat(m, first, rest, from);
    var y := ApplyAll(m, first, from);
    AddedTwice(m, y, ApplyAll(y, rest, from + |first|), a, b);
  }

  lemma ReadsNothing(m: Machine, from: nat)
    ensures Reads(m, [], from, [])
  {
    assert m.scenarios + [] == m.scenarios;
  }

  lemma {:induction false} ReadRules(m: Machine, ns: seq<RuleNode>, from: nat)
    requires m.pending == []
    ensures Reads(m, RulesTokens(ns), from, FlatRules(ns, from, m.featureBg))
    decreases |ns|, 0
  {
    if ns == [] {
      ReadsNothing(m, from);
    } else {
      RuleThenRules(m, ns[0], ns[1..], from);
    }
  }

  lemma {:induction false} RuleThenRules(m: Machine, first: RuleNode, rest: seq<RuleNode>, from: nat)
    requires m.pending == []
    ensures Reads(m, RuleTokens(first) + RulesTokens(rest), from,
                  FlatRule(first, from, m.featureBg) + FlatRules(rest, from + |RuleTokens(first)|, m.featureBg))
    decreases |rest|, 1
  {
    var next := from + |RuleTokens(first)|;
    AfterRule(m, first, from);
    ReadRules(ApplyAll(m, RuleTokens(first), from), rest, next);
    ReadRule(m, first, from);
    ReadsOn(m, RuleTokens(first), RulesTokens(rest), from, FlatRule(first, from, m.featureBg),
            FlatRules(rest, next, m.featureBg));
  }

  /** The tokens before a feature's first scenario. */
  function HeadTokens(n: FeatureNode): seq<Token>
  {
    TagTokens(n.tags) + [FeatureHead(n.name)] + ProseTokens(n.prose) + BackgroundTokens(n.background)
  }

  lemma ReadTitle(n: FeatureNode)
    ensures var y := ApplyAll(IDLE, TagTokens(n.tags) + [FeatureHead(n.name)], 0);
      y == IDLE.(name := n.name, tags := AllTags(n.tags), inProse := true)
  {
    ReadTags(IDLE, n.tags, 0);
    ApplyLast(IDLE, TagTokens(n.tags), FeatureHead(n.name), 0);
  }

  lemma ReadProseOfTitle(n: FeatureNode)
    ensures var y := ApplyAll(IDLE, TagTokens(n.tags) + [FeatureHead(n.name)] + ProseTokens(n.prose), 0);
      y == IDLE.(name := n.name, tags := AllTags(n.tags), inProse := true, prose := n.prose)
  {
    var t1 := TagTokens(n.tags) + [FeatureHead(n.name)];
    ReadTitle(n);
    ApplyConcat(IDLE, t1, ProseTokens(n.prose), 0);
    ReadProse(ApplyAll(IDLE, t1, 0), n.prose, |t1|);
    assert [] + n.prose == n.prose;
  }

  lemma ReadHead(n: FeatureNode)
    ensures var y := ApplyAll(IDLE, HeadTokens(n), 0);
      && y.name == n.name && y.tags == AllTags(n.tags) && y.prose == n.prose && y.pending == [] && y.rule == None
      && y.featureBg == Located(n.background, |TagTokens(n.tags)| + 1 + |n.prose| + 2) && y.scenarios == []
  {
    var t2 := TagTokens(n.tags) + [FeatureHead(n.name)] + ProseTokens(n.prose);
    ReadProseOfTitle(n);
    ApplyConcat(IDLE, t2, BackgroundTokens(n.background), 0);
    ReadBackground(ApplyAll(IDLE, t2, 0), n.background, |t2|);
  }

  /** After the head and the feature's own scenarios. */
  ghost predicate TopRead(n: FeatureNode, y: Machine)
  {
    && y.name == n.name && y.tags == AllTags(n.tags) && y.prose == n.prose && y.pending == []
    && y.featureBg == Located(n.background, |TagTokens(n.tags)| + 1 + |n.prose| + 2)
    && y.scenarios == FlatScenarios(n.scenarios, |HeadTokens(n)|, None, y.featureBg)
  }

  function TopTokens(n: FeatureNode): seq<Token>
  {
    HeadTokens(n) + ScenariosTokens(n.scenarios)
  }

  lemma ReadTop(n: FeatureNode)
    ensures TopRead(n, ApplyAll(IDLE, TopTokens(n), 0))
  {
    var head, scs := HeadTokens(n), ScenariosTokens(n.scenarios);
    ReadHead(n);
    var y := ApplyAll(IDLE, head, 0);
    ApplyConcat(IDLE, head, scs, 0);
    ReadScenarios(y, n.scenarios, |head|);
    assert Base(y) == y.featureBg + [] == y.featureBg;
    var flat := FlatScenarios(n.scenarios, |head|, None, y.featureBg);
    assert [] + flat == flat;
  }

  lemma TopLength(n: FeatureNode)
    ensures |HeadTokens(n)| == |TagTokens(n.tags)| + 1 + |n.prose| + |BackgroundTokens(n.background)|
    ensures |TopTokens(n)| == |HeadTokens(n)| + |ScenariosTokens(n.scenarios)|
  {
  }

  lemma FlattenInParts(n: FeatureNode, bg: seq<Step>)
    requires bg == Located(n.background, |TagTokens(n.tags)| + 1 + |n.prose| + 2)
    ensures Flatten(n).scenarios
         == FlatScenarios(n.scenarios, |HeadTokens(n)|, None, bg) + FlatRules(n.rules, |TopTokens(n)|, bg)
  {
    TopLength(n);
  }

  lemma FinishTop(n: FeatureNode, y: Machine, z: Machine)
    requires TopRead(n, y) && Added(y, z, FlatRules(n.rules, |TopTokens(n)|, y.featureBg))
    ensures Finish(z) == Flatten(n)
  {
    FlattenInParts(n, y.featureBg);
  }

  lemma FinishRules(n: FeatureNode, y: Machine)
    requires TopRead(n, y)
    ensures Finish(ApplyAll(y, RulesTokens(n.rules), |TopTokens(n)|)) == Flatten(n)
  {
    ReadRules(y, n.rules, |TopTokens(n)|);
    FinishTop(n, y, ApplyAll(y, RulesTokens(n.rules), |TopTokens(n)|));
  }

  lemma FeatureInParts(n: FeatureNode)
    ensures FeatureTokens(n) == TopTokens(n) + RulesTokens(n.rules)
  {
  }

  /** Reading the tokens of a tree gives the flattened tree. */
  lemma ReadFeature(n: FeatureNode)
    ensures Finish(ApplyAll(IDLE, FeatureTokens(n), 0)) == Flatten(n)
  {
    ReadTop(n);
    FeatureInParts(n);
    ApplyConcat(IDLE, TopTokens(n), RulesTokens(n.rules), 0);
    FinishRules(n, ApplyAll(IDLE, TopTokens(n), 0));
  }
}
