/** Feature files as text: a tree's printed lines read back as the tree, and layout does not matter. */
module FeatureText {
  import opened Text
  import opened Sorting
  import opened Gherkin
  import opened FeatureTree

  // ----- What spells a token -----

  predicate Word(w: string)
  {
    w != "" && forall i :: 0 <= i < |w| ==> !IsSpace(w[i])
  }

  /** The line is these words with white space between them. */
  predicate Spaced(line: string, words: seq<string>)
    decreases |words|
  {
    && words != [] && Word(words[0]) && words[0] <= line
    && if |words| == 1 then line == words[0]
       else
         var rest := line[|words[0]|..];
         rest != "" && IsSpace(rest[0]) && Spaced(TrimLeft(rest), words[1..])
  }

  predicate Name(s: string)
  {
    s == "" || Tight(s)
  }

  /** The text is any amount of white space, then the name. */
  predicate Indented(s: string, name: string)
  {
    && Name(name) && |name| <= |s|
    && Blanks(s[..|s| - |name|]) && s[|s| - |name|..] == name
  }

  predicate Titled(line: string, head: string, name: string)
  {
    head <= line && Indented(line[|head|..], name)
  }

  const MARKS := ["#", "@", "Feature:", "Rule:", "Background:", "Scenario:", "Scenario Outline:"]

  predicate Unmarked(line: string)
  {
    && line != ""
    && (forall i :: 0 <= i < |MARKS| ==> !(MARKS[i] <= line))
    && (forall k :: 0 <= k < |KEYWORDS| ==> !(KEYWORDS[k] + " " <= line))
  }

  /** The line starts with a tag, and its tags are these; other words are dropped. */
  ghost predicate TagLine(line: string, tags: seq<string>)
  {
    exists words :: Spaced(line, words) && "@" <= words[0] && Picks(words, TagPlaces(words), tags)
  }

  /** The trimmed line is a way to write the token. */
  ghost predicate Spells(line: string, t: Token)
  {
    match t
    case Skip => line == "" || "#" <= line
    case Tags(tags) => TagLine(line, tags)
    case FeatureHead(name) => Titled(line, "Feature:", name)
    case RuleHead(name) => Titled(line, "Rule:", name)
    case BackgroundHead => "Background:" <= line
    case ScenarioHead(name) => Titled(line, "Scenario:", name) || Titled(line, "Scenario Outline:", name)
    case StepLine(keyword, text) => keyword in KEYWORDS && Titled(line, keyword + " ", text)
    case Prose(text) => line == text && Unmarked(line)
  }

  // ----- Words -----

  lemma {:induction false} WordRead(w: string, rest: string, word: string)
    requires forall i :: 0 <= i < |w| ==> !IsSpace(w[i])
    ensures FieldsFrom(w + rest, word) == FieldsFrom(rest, word + w)
    decreases |w|
  {
    if w == [] {
      assert w + rest == rest && word + w == word;
    } else {
      assert (w + rest)[1..] == w[1..] + rest;
      WordRead(w[1..], rest, word + [w[0]]);
      assert word + [w[0]] + w[1..] == word + w;
    }
  }

  lemma {:induction false} LeadingBlanks(s: string)
    ensures Fields(TrimLeft(s)) == Fields(s)
  {
    if s != [] && IsSpace(s[0]) { LeadingBlanks(s[1..]); }
  }

  /** The first field ends at the first blank. */
  lemma FirstField(line: string, w: string)
    requires Word(w) && w <= line && (|w| < |line| ==> IsSpace(line[|w|]))
    ensures Fields(line) == [w] + Fields(TrimLeft(line[|w|..]))
  {
    var rest := line[|w|..];
    assert line == w + rest && "" + w == w;
    WordRead(w, rest, "");
    if rest != [] {
      assert rest[0] == line[|w|];
      LeadingBlanks(rest[1..]);
    }
  }

  lemma {:induction false} SpacedFields(line: string, words: seq<string>)
    requires Spaced(line, words)
    ensures Fields(line) == words
    decreases |words|
  {
    var rest := line[|words[0]|..];
    FirstField(line, words[0]);
    if |words| == 1 {
      assert rest == [];
    } else {
      SpacedFields(TrimLeft(rest), words[1..]);
    }
  }

  lemma {:induction false} FirstBlank(line: string, from: nat) returns (k: nat)
    requires from <= |line| && forall i :: 0 <= i < from ==> !IsSpace(line[i])
    ensures from <= k <= |line| && (k < |line| ==> IsSpace(line[k])) && forall i :: 0 <= i < k ==> !IsSpace(line[i])
    decreases |line| - from
  {
    if from == |line| || IsSpace(line[from]) { k := from; } else { k := FirstBlank(line, from + 1); }
  }

  lemma TrimLeftTight(s: string)
    requires s != "" && !IsSpace(s[|s| - 1])
    ensures Tight(TrimLeft(s)) && |TrimLeft(s)| <= |s|
  {
    TrimLeftShape(s);
    TrimLeftLeaves(s);
  }

  lemma {:induction false} TrimLeftLeaves(s: string)
    requires s != "" && !IsSpace(s[|s| - 1])
    ensures TrimLeft(s) != ""
  {
    if IsSpace(s[0]) { TrimLeftLeaves(s[1..]); }
  }

  lemma {:induction false} FieldsSpaced(line: string)
    requires Tight(line)
    ensures Spaced(line, Fields(line))
    decreases |line|
  {
    var k := FirstBlank(line, 0);
    var w, rest := line[..k], line[k..];
    FirstField(line, w);
    if k < |line| {
      assert rest[|rest| - 1] == line[|line| - 1];
      TrimLeftTight(rest);
      FieldsSpaced(TrimLeft(rest));
      var more := Fields(TrimLeft(rest));
      assert ([w] + more)[1..] == more;
    }
  }

  lemma TagLineExactly(line: string, tags: seq<string>)
    requires Tight(line)
    ensures TagLine(line, tags) <==> "@" <= line && OnlyTags(Fields(line)) == tags
  {
    FieldsSpaced(line);
    var own := Fields(line);
    OnlyTagsPick(own);
    if "@" <= line && OnlyTags(own) == tags { assert line[0] == own[0][0]; }
    if TagLine(line, tags) {
      var words :| Spaced(line, words) && "@" <= words[0] && Picks(words, TagPlaces(words), tags);
      SpacedFields(line, words);
      PicksUnique(own, TagPlaces(own), OnlyTags(own), tags);
    }
  }

  lemma AllPicked(words: seq<string>)
    requires forall i :: 0 <= i < |words| ==> "@" <= words[i]
    ensures Picks(words, TagPlaces(words), words)
  {
    var at := seq(|words|, i requires 0 <= i < |words| => i);
    forall i: nat ensures i in at <==> i in TagPlaces(words) {
      if i < |words| { assert at[i] == i; }
    }
    assert PicksAt(words, TagPlaces(words), at, words);
  }

  /** A line of tags only reads as exactly those words. */
  lemma AllTagsRead(line: string, words: seq<string>)
    requires Spaced(line, words) && Tight(line) && forall i :: 0 <= i < |words| ==> "@" <= words[i]
    ensures Classify(line) == Tags(words)
  {
    AllPicked(words);
    assert TagLine(line, words);
    TokenRead(line, Tags(words));
  }

  // ----- Titles -----

  lemma {:induction false} TrimLeftExactly(s: string, name: string)
    requires name == "" || !IsSpace(name[0])
    ensures TrimLeft(s) == name <==> |name| <= |s| && Blanks(s[..|s| - |name|]) && s[|s| - |name|..] == name
  {
    if s != [] && IsSpace(s[0]) {
      TrimLeftExactly(s[1..], name);
      if |name| < |s| {
        assert s[..|s| - |name|] == [s[0]] + s[1..][..|s| - 1 - |name|];
        assert s[1..][|s| - 1 - |name|..] == s[|s| - |name|..];
      }
    } else if s != [] && |name| < |s| {
      assert |s[..|s| - |name|]| > 0 && s[..|s| - |name|][0] == s[0];
    }
  }

  lemma TrimExactly(s: string, name: string)
    requires s == "" || !IsSpace(s[|s| - 1])
    ensures TrimSpace(s) == name <==> Indented(s, name)
  {
    if s != "" { TrimLeftTight(s); }
    assert TrimSpace(s) == TrimLeft(s);
    if Name(name) { TrimLeftExactly(s, name); } else { TrimSpaceShape(s); }
  }

  lemma AfterExactly(line: string, head: string, name: string)
    requires Tight(line) && head <= line
    ensures After(line, head) == name <==> Titled(line, head, name)
  {
    TrimExactly(line[|head|..], name);
  }

  // ----- Steps -----

  lemma NotPrefix(p: string, s: string, i: nat)
    requires i < |p| && (i >= |s| || p[i] != s[i])
    ensures !(p <= s)
  {
  }

  lemma {:induction false} KeywordRead(line: string, k: nat, i: nat)
    requires k <= i < |KEYWORDS| && KEYWORDS[i] + " " <= line
    ensures KeywordFrom(line, k) == Some(KEYWORDS[i])
    decreases i - k
  {
    if k < i {
      assert line[0] == (KEYWORDS[i] + " ")[0] == KEYWORDS[i][0];
      NotPrefix(KEYWORDS[k] + " ", line, 0);
      KeywordRead(line, k + 1, i);
    }
  }

  lemma {:induction false} KeywordFound(line: string, k: nat)
    requires k <= |KEYWORDS|
    ensures KeywordFrom(line, k).None? ==> forall i :: k <= i < |KEYWORDS| ==> !(KEYWORDS[i] + " " <= line)
    ensures KeywordFrom(line, k).Some? ==> KeywordFrom(line, k).value in KEYWORDS && KeywordFrom(line, k).value + " " <= line
    decreases |KEYWORDS| - k
  {
    if k < |KEYWORDS| { KeywordFound(line, k + 1); }
  }

  lemma KeywordExactly(line: string, keyword: string)
    ensures KeywordFrom(line, 0) == Some(keyword) <==> keyword in KEYWORDS && keyword + " " <= line
  {
    KeywordFound(line, 0);
    if keyword in KEYWORDS && keyword + " " <= line {
      var i :| 0 <= i < |KEYWORDS| && keyword == KEYWORDS[i];
      KeywordRead(line, 0, i);
    }
  }

  lemma SplitOf(line: string, keyword: string)
    requires KeywordFrom(line, 0) == Some(keyword) && keyword + " " <= line
    ensures SplitStep(line) == Some((keyword, After(line, keyword + " ")))
  {
  }

  lemma StepExactly(line: string, keyword: string, text: string)
    requires Tight(line)
    ensures SplitStep(line) == Some((keyword, text)) <==> keyword in KEYWORDS && Titled(line, keyword + " ", text)
  {
    KeywordExactly(line, keyword);
    if KeywordFrom(line, 0) == Some(keyword) {
      SplitOf(line, keyword);
      AfterExactly(line, keyword + " ", text);
    }
  }

  lemma ProseExactly(line: string)
    requires line != ""
    ensures Unmarked(line) <==> SplitStep(line).None? && forall i :: 0 <= i < |MARKS| ==> !(MARKS[i] <= line)
  {
    KeywordFound(line, 0);
    forall k | 0 <= k < |KEYWORDS| && KEYWORDS[k] + " " <= line ensures SplitStep(line).Some? {
      KeywordRead(line, 0, k);
    }
  }

  // ----- The classifier -----

  /** A line carries one mark at most. */
  lemma OneMark(line: string, i: nat, j: nat)
    requires i < |MARKS| && j < |MARKS| && i != j && MARKS[i] <= line
    ensures !(MARKS[j] <= line)
  {
    assert line[0] == MARKS[i][0] && (i >= 5 ==> line[8] == MARKS[i][8]);
    NotPrefix(MARKS[j], line, if i >= 5 && j >= 5 then 8 else 0);
  }

  lemma StepsAreUnmarked(line: string, k: nat, i: nat)
    requires k < |KEYWORDS| && i < |MARKS| && KEYWORDS[k] + " " <= line
    ensures !(MARKS[i] <= line)
  {
    assert line[0] == KEYWORDS[k][0] && line[1] == KEYWORDS[k][1];
    NotPrefix(MARKS[i], line, if i == 4 && k == 4 then 1 else 0);
  }

  predicate OnlyMark(line: string, i: nat)
    requires i < |MARKS|
  {
    MARKS[i] <= line && forall j :: 0 <= j < |MARKS| && j != i ==> !(MARKS[j] <= line)
  }

  lemma MarkIsOnly(line: string, i: nat)
    requires i < |MARKS| && MARKS[i] <= line
    ensures OnlyMark(line, i)
    ensures forall k :: 0 <= k < |KEYWORDS| ==> !(KEYWORDS[k] + " " <= line)
  {
    forall j | 0 <= j < |MARKS| && j != i ensures !(MARKS[j] <= line) { OneMark(line, i, j); }
    forall k | 0 <= k < |KEYWORDS| ensures !(KEYWORDS[k] + " " <= line) {
      if KEYWORDS[k] + " " <= line { StepsAreUnmarked(line, k, i); }
    }
  }

  lemma MarkedRead(line: string, i: nat, t: Token)
    requires Tight(line) && i < |MARKS| && OnlyMark(line, i)
    requires forall k :: 0 <= k < |KEYWORDS| ==> !(KEYWORDS[k] + " " <= line)
    ensures Spells(line, t) <==> Classify(line) == t
  {
    assert MARKS[0] == "#" && MARKS[1] == "@" && MARKS[2] == "Feature:" && MARKS[3] == "Rule:";
    assert MARKS[4] == "Background:" && MARKS[5] == "Scenario:" && MARKS[6] == "Scenario Outline:";
    if t.Tags? { TagLineExactly(line, t.tags); }
    if (t.FeatureHead? && i == 2) || (t.RuleHead? && i == 3) || (t.ScenarioHead? && i >= 5) {
      AfterExactly(line, MARKS[i], t.name);
    }
  }

  lemma UnmarkedRead(line: string, t: Token)
    requires Tight(line) && forall i :: 0 <= i < |MARKS| ==> !(MARKS[i] <= line)
    ensures Spells(line, t) <==> Classify(line) == t
  {
    assert MARKS[0] == "#" && MARKS[1] == "@" && MARKS[2] == "Feature:" && MARKS[3] == "Rule:";
    assert MARKS[4] == "Background:" && MARKS[5] == "Scenario:" && MARKS[6] == "Scenario Outline:";
    if t.Tags? { TagLineExactly(line, t.tags); }
    if t.StepLine? { StepExactly(line, t.keyword, t.text); }
    ProseExactly(line);
  }

  /** A trimmed line is read as a token if and only if it is a way to write that token. */
  lemma TokenRead(line: string, t: Token)
    requires line == "" || Tight(line)
    ensures Spells(line, t) <==> Classify(line) == t
  {
    if line == "" {
      EmptyRead(t);
    } else if exists i: nat :: i < |MARKS| && MARKS[i] <= line {
      var i: nat :| i < |MARKS| && MARKS[i] <= line;
      MarkIsOnly(line, i);
      MarkedRead(line, i, t);
    } else {
      UnmarkedRead(line, t);
    }
  }

  lemma EmptyRead(t: Token)
    ensures Spells("", t) <==> t == Skip
  {
    forall words ensures !Spaced("", words) {}
  }

  /** The file prints the tree, one token a line, each line indented at will. */
  ghost predicate Prints(lines: seq<string>, n: FeatureNode)
  {
    && |lines| == |FeatureTokens(n)|
    && forall i :: 0 <= i < |lines| ==> Spells(TrimSpace(lines[i]), FeatureTokens(n)[i])
  }

  /** Reading a printed tree gives the flattened tree, line numbers included. */
  lemma ReadPrinted(lines: seq<string>, n: FeatureNode)
    requires Prints(lines, n)
    ensures Reading(lines) == Flatten(n)
  {
    forall i | 0 <= i < |lines| ensures Tokens(lines)[i] == FeatureTokens(n)[i] {
      TrimSpaceShape(lines[i]);
      TokenRead(TrimSpace(lines[i]), FeatureTokens(n)[i]);
    }
    assert Tokens(lines) == FeatureTokens(n);
    ReadFeature(n);
  }

  // ----- Layout -----

  predicate Blank(line: string)
  {
    var raw := TrimSpace(line);
    raw == "" || "#" <= raw
  }

  function Meaningful(lines: seq<string>): seq<string>
  {
    if lines == [] then []
    else (if Blank(lines[0]) then [] else [lines[0]]) + Meaningful(lines[1..])
  }

  function BlurSteps(steps: seq<Step>): seq<Step>
  {
    seq(|steps|, i requires 0 <= i < |steps| => steps[i].(line := 0))
  }

  function BlurRule(r: Option<Rule>): Option<Rule>
  {
    if r.None? then None else Some(r.value.(line := 0))
  }

  function BlurScenario(s: Scenario): Scenario
  {
    s.(line := 0, rule := BlurRule(s.rule), steps := BlurSteps(s.steps))
  }

  function BlurScenarios(ss: seq<Scenario>): seq<Scenario>
  {
    seq(|ss|, i requires 0 <= i < |ss| => BlurScenario(ss[i]))
  }

  /** The feature without its line numbers. */
  function Blur(f: Feature): Feature
  {
    f.(scenarios := BlurScenarios(f.scenarios))
  }

  function BlurMachine(m: Machine): Machine
  {
    m.(featureBg := BlurSteps(m.featureBg), ruleBg := BlurSteps(m.ruleBg), rule := BlurRule(m.rule),
       scenarios := BlurScenarios(m.scenarios))
  }

  lemma BlurConcat(a: seq<Step>, b: seq<Step>)
    ensures BlurSteps(a + b) == BlurSteps(a) + BlurSteps(b)
  {
  }

  lemma BlurAddStep(m: Machine, step: Step)
    ensures BlurMachine(AddStep(m, step)) == AddStep(BlurMachine(m), step.(line := 0))
  {
    var blurred := step.(line := 0);
    assert BlurSteps([step]) == [blurred];
    match m.target
    case Nowhere =>
    case OnFeature => BlurConcat(m.featureBg, [step]);
    case OnRule => BlurConcat(m.ruleBg, [step]);
    case OnScenario =>
      if m.scenarios != [] {
        BlurConcat(m.scenarios[|m.scenarios| - 1].steps, [step]);
        assert AddStep(BlurMachine(m), blurred).scenarios == BlurScenarios(AddStep(m, step).scenarios);
      }
  }

  lemma BlurOpenScenario(m: Machine, name: string, line: nat)
    ensures BlurMachine(Apply(m, ScenarioHead(name), line)) == Apply(BlurMachine(m), ScenarioHead(name), 0)
  {
    BlurConcat(m.featureBg, if m.rule.Some? then m.ruleBg else []);
    assert BlurSteps([]) == [];
    var s := Scenario(name, line, m.pending, m.rule, Base(m));
    assert BlurScenarios(m.scenarios + [s]) == BlurScenarios(m.scenarios) + [BlurScenario(s)];
  }

  lemma BlurApply(m: Machine, t: Token, line: nat)
    ensures BlurMachine(Apply(m, t, line)) == Apply(BlurMachine(m), t, 0)
  {
    if t.ScenarioHead? {
      BlurOpenScenario(m, t.name, line);
    } else if t.StepLine? {
      BlurAddStep(m, Step(t.keyword, t.text, line));
    } else {
      assert BlurSteps([]) == [];
    }
  }

  /** The machine on lines without numbers. */
  function ApplyPlain(m: Machine, lines: seq<string>): Machine
    decreases |lines|
  {
    if lines == [] then m else ApplyPlain(Apply(m, Classify(TrimSpace(lines[0])), 0), lines[1..])
  }

  lemma {:induction false} BlurApplyAll(m: Machine, lines: seq<string>, from: nat)
    ensures BlurMachine(ApplyAll(m, Tokens(lines), from)) == ApplyPlain(BlurMachine(m), Meaningful(lines))
    decreases |lines|
  {
    if lines != [] {
      var t := Classify(TrimSpace(lines[0]));
      assert Tokens(lines)[1..] == Tokens(lines[1..]);
      BlurApply(m, t, from + 1);
      BlurApplyAll(Apply(m, t, from + 1), lines[1..], from + 1);
      if Blank(lines[0]) {
        assert Meaningful(lines) == Meaningful(lines[1..]);
      } else {
        assert Meaningful(lines)[1..] == Meaningful(lines[1..]);
      }
    }
  }

  /** Two files that differ only in blank and comment lines read the same, but for line numbers. */
  lemma LayoutIsIrrelevant(a: seq<string>, b: seq<string>)
    requires Meaningful(a) == Meaningful(b)
    ensures Blur(Reading(a)) == Blur(Reading(b))
  {
    BlurApplyAll(IDLE, a, 0);
    BlurApplyAll(IDLE, b, 0);
  }

  /** The two together: any file that prints a tree, with blank and comment lines anywhere. */
  lemma ReadLaidOut(lines: seq<string>, printed: seq<string>, n: FeatureNode)
    requires Prints(printed, n) && Meaningful(lines) == Meaningful(printed)
    ensures Blur(Reading(lines)) == Blur(Flatten(n))
  {
    ReadPrinted(printed, n);
    LayoutIsIrrelevant(lines, printed);
  }
}
