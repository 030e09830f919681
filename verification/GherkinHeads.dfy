// What a tag line, a header or a step does when nothing waits to be attached, field by field: where steps go from
// then on, what an item starts with, and that steps without an item go nowhere.
module GherkinHeads {
  import opened Text
  import opened GherkinLines
  import opened GherkinParser
  import opened GherkinRow
  import opened GherkinStray

  /** Outside doc strings, with no table row waiting for its step. */
  predicate AtRest(s: State) { Valid(s) && s.docstring.None? && s.tableRows.None? }

  /** No step changes, and none is added. */
  predicate SameSteps(s: State, t: State) {
    t.feature.background == s.feature.background && t.feature.scenarios == s.feature.scenarios && t.outline == s.outline
    && t.lastStep == s.lastStep
  }

  /** The scenarios there were, followed by what the Examples block collected so far expands to. */
  predicate BlockExpanded(s: State, scenarios: seq<Scenario>) {
    && s.feature.scenarios <= scenarios
    && var added := scenarios[|s.feature.scenarios|..];
       if s.outline.Some? && s.examplesHeaders.Some?
       then FromRows(s.outline.value, s.examplesHeaders.value, s.examplesTags, s.examplesRows, added)
       else added == []
  }

  lemma ExpansionIs(s: State)
    requires Valid(s)
    ensures BlockExpanded(s, s.feature.scenarios + Expansion(s))
  {
    if s.outline.Some? && s.examplesHeaders.Some? {
      RowsExpand(s.outline.value, s.examplesHeaders.value, s.examplesTags, s.examplesRows);
    }
    assert (s.feature.scenarios + Expansion(s))[|s.feature.scenarios|..] == Expansion(s);
  }

  lemma CloseAtRest(s: State, c: State)
    requires AtRest(s) && c == CloseStep(Counted(s))
    ensures AtRest(c) && SameSteps(s, c) && c.lineNo == s.lineNo + 1
    ensures c == s.(lineNo := c.lineNo, feature := c.feature, outline := c.outline)
    ensures c.feature == s.feature
  {
    NothingToClose(Counted(s));
  }

  // ---------------------------------------------------------------- steps

  /** A step is added, with its keyword and text and nothing attached, to the end of what is being read, and is the last
      step from then on. Where nothing is being read it changes no list. */
  lemma StepGoesTo(s: State, raw: string, keyword: string, text: string, t: State)
    requires AtRest(s) && Classify(raw) == StepLine(keyword, text) && t == LineStep(s, raw)
    ensures AtRest(t) && t.target == s.target
    ensures s.target.Nowhere? ==> SameSteps(s, t)
    ensures s.target.ToBackground? ==>
              t.lastStep == InBackground && t.feature.scenarios == s.feature.scenarios && t.outline == s.outline
              && t.feature.background == s.feature.background + [Step(keyword, text, None, None)]
    ensures s.target.ToScenario? ==>
              var k := |s.feature.scenarios| - 1;
              && t.lastStep == InScenario(k) && t.feature.background == s.feature.background && t.outline == s.outline
              && |t.feature.scenarios| == k + 1 && t.feature.scenarios[..k] == s.feature.scenarios[..k]
              && t.feature.scenarios[k] == s.feature.scenarios[k].(steps := s.feature.scenarios[k].steps + [Step(keyword, text, None, None)])
    ensures s.target.ToOutline? ==>
              && t.lastStep == InOutline && t.feature.background == s.feature.background && t.feature.scenarios == s.feature.scenarios
              && t.outline == Some(s.outline.value.(steps := s.outline.value.steps + [Step(keyword, text, None, None)]))
  {
    CloseAtRest(s, CloseStep(Counted(s)));
  }

  // ---------------------------------------------------------------- headers

  /** Tags wait for the next header that takes them, behind those that wait already. */
  lemma TagsWait(s: State, raw: string, tags: seq<string>, t: State)
    requires AtRest(s) && Classify(raw) == Tags(tags) && t == LineStep(s, raw)
    ensures AtRest(t) && SameSteps(s, t) && t.pendingTags == s.pendingTags + tags && t.target == s.target
  {
    CloseAtRest(s, CloseStep(Counted(s)));
  }

  /** A feature takes the waiting tags and its name; a background takes none, and steps go to it. */
  lemma FeatureBegins(s: State, raw: string, t: State)
    requires AtRest(s) && t == LineStep(s, raw)
    ensures forall name :: Classify(raw) == FeatureHead(name) ==>
              t.feature.name == name && t.feature.tags == s.pendingTags && t.pendingTags == [] && SameSteps(s, t)
    ensures Classify(raw).BackgroundHead? ==>
              t.target == ToBackground && t.pendingTags == s.pendingTags && SameSteps(s, t) && t.inExamples == s.inExamples
  {
    CloseAtRest(s, CloseStep(Counted(s)));
  }

  /** A scenario starts with its name, the waiting tags, no steps and its own line number, behind the scenarios there were
      and the expansion of an Examples block that was still open; steps go to it. */
  lemma ScenarioBegins(s: State, raw: string, name: string, t: State)
    requires AtRest(s) && Classify(raw) == ScenarioHead(name) && t == LineStep(s, raw)
    ensures AtRest(t) && t.target == ToScenario && t.pendingTags == [] && !t.inExamples && t.outline.None?
    ensures t.feature.background == s.feature.background && |t.feature.scenarios| > 0
    ensures var last := |t.feature.scenarios| - 1;
            && t.feature.scenarios[last] == Scenario(name, s.pendingTags, [], s.lineNo + 1, None)
            && BlockExpanded(s, t.feature.scenarios[..last])
  {
    CloseAtRest(s, CloseStep(Counted(s)));
    ExpansionIs(s);
    assert t.feature.scenarios == (s.feature.scenarios + Expansion(s)) + [Scenario(name, s.pendingTags, [], s.lineNo + 1, None)];
  }

  /** So does an outline, which is no scenario itself. */
  lemma OutlineBegins(s: State, raw: string, name: string, t: State)
    requires AtRest(s) && Classify(raw) == OutlineHead(name) && t == LineStep(s, raw)
    ensures AtRest(t) && t.target == ToOutline && t.pendingTags == [] && !t.inExamples && t.examplesHeaders.None? && t.examplesRows == []
    ensures t.outline == Some(Scenario(name, s.pendingTags, [], s.lineNo + 1, None))
    ensures t.feature.background == s.feature.background && BlockExpanded(s, t.feature.scenarios)
  {
    CloseAtRest(s, CloseStep(Counted(s)));
    ExpansionIs(s);
  }

  /** An Examples header takes the waiting tags for its rows; a block before it is expanded; steps go nowhere. */
  lemma ExamplesBegin(s: State, raw: string, t: State)
    requires AtRest(s) && Classify(raw).ExamplesHead? && t == LineStep(s, raw)
    ensures AtRest(t) && t.target == Nowhere && t.inExamples && t.examplesHeaders.None? && t.examplesRows == []
    ensures t.examplesTags == s.pendingTags && t.pendingTags == [] && t.outline == s.outline && t.lastStep == s.lastStep
    ensures t.feature.background == s.feature.background && BlockExpanded(s, t.feature.scenarios)
  {
    CloseAtRest(s, CloseStep(Counted(s)));
    ExpansionIs(s);
  }

  // ---------------------------------------------------------------- steps without an item

  /** No header that gives steps a place. */
  predicate OpensNoItem(raw: string) {
    var line := Classify(raw);
    line.Empty? || line.Comment? || line.Tags? || line.FeatureHead? || line.StepLine? || line.Prose?
  }

  lemma NoItemStep(s: State, raw: string, t: State)
    requires AtRest(s) && s.target.Nowhere? && OpensNoItem(raw) && t == LineStep(s, raw)
    ensures AtRest(t) && t.target.Nowhere? && SameSteps(s, t)
  {
    CloseAtRest(s, CloseStep(Counted(s)));
  }

  /** Steps after an Examples header, and before the first item of a file, are dropped, whatever tags, comments and text
      stand between them, until a background, scenario or outline begins. */
  lemma {:induction false} StepsWithoutItemDropped(s: State, lines: seq<string>)
    requires AtRest(s) && s.target.Nowhere? && forall raw :: raw in lines ==> OpensNoItem(raw)
    ensures SameSteps(s, RunLines(s, lines))
    decreases |lines|
  {
    if lines != [] {
      var t := LineStep(s, lines[0]);
      assert lines[0] in lines;
      NoItemStep(s, lines[0], t);
      forall raw | raw in lines[1..] ensures OpensNoItem(raw) { assert raw in lines; }
      StepsWithoutItemDropped(t, lines[1..]);
    }
  }
}
