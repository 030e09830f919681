// The round trip for whole feature files: scenarios, outlines with their Examples blocks, the
// background and the header, and then the text itself.
module GherkinFeature {
  import opened Text
  import opened GherkinRow
  import opened GherkinLines
  import opened GherkinParser
  import opened GherkinSource
  import opened GherkinRoundTrip

  /** A state between items: nothing open, no tags waiting. */
  predicate Between(s: State) { Ready(s) && s.pendingTags == [] }

  function WithScenarios(f: Feature, more: seq<Scenario>): Feature {
    f.(scenarios := f.scenarios + more)
  }

  lemma MoreScenarios(f: Feature, a: seq<Scenario>, b: seq<Scenario>)
    ensures WithScenarios(WithScenarios(f, a), b) == WithScenarios(f, a + b)
    ensures WithScenarios(f, []) == f
  {
    assert f.scenarios + a + b == f.scenarios + (a + b);
  }

  // ---------------------------------------------------------------- what finishing looks at

  /** Closing a step changes neither the tags, nor the section, nor the line count. */
  lemma CloseFrame(s: State)
    requires Valid(s)
    ensures var c := CloseStep(s);
            c.pendingTags == s.pendingTags && c.section == s.section && c.lineNo == s.lineNo
            && c.descriptionLines == s.descriptionLines
  {
  }

  lemma FinishClose(s: State, c: State)
    requires Ready(s) && c == CloseStep(s)
    ensures Closed(c) && Finish(s) == Finish(c)
  {
    CloseIsClosed(s);
  }

  /** A state in the middle of an item, with nothing to attach and no block to expand. */
  predicate Plainly(c: State) {
    Closed(c) && !c.section.OfFeature? && c.examplesHeaders.None?
  }

  lemma FinishPlainly(c: State)
    requires Plainly(c)
    ensures Finish(c) == c.feature
  {
    CloseClosed(c);
    assert c.feature.scenarios + [] == c.feature.scenarios;
  }

  lemma FinishTagged(c: State, tags: seq<string>, n: nat)
    requires Valid(c)
    ensures Finish(c.(pendingTags := tags, lineNo := n)) == Finish(c)
  {
  }

  // ---------------------------------------------------------------- tags

  lemma TagsReadIs(s: State, tags: seq<string>, l: Layout, c: State, r: State)
    requires Between(s) && AllTags(tags) && tags != [] && GoodLayout(l) && c == CloseStep(s)
    requires r == LineStep(s, l.indent + Join(tags, " "))
    ensures r == c.(pendingTags := tags, lineNo := s.lineNo + 1)
  {
    TagsTrimmed(tags);
    Reads(s, l.indent, Join(tags, " "));
    TagLine(tags);
    CloseOn(s, 1);
    CloseFrame(s);
    assert [] + tags == tags;
  }

  /** A state closed, with tags read on a further line. */
  lemma TaggedFacts(s: State, tags: seq<string>, c: State, r: State)
    requires Between(s) && c == CloseStep(s) && r == c.(pendingTags := tags, lineNo := s.lineNo + 1)
    ensures Ready(r) && CloseStep(r) == r && Finish(r) == Finish(s) && r.section == s.section
  {
    FinishClose(s, c);
    CloseFrame(s);
    CloseClosed(r);
    FinishTagged(c, tags, s.lineNo + 1);
  }

  lemma TagsRun(s: State, tags: seq<string>, l: Layout, r: State)
    requires Between(s) && AllTags(tags) && GoodLayout(l)
    requires r == RunLines(s, PrintTags(tags, l))
    ensures Ready(r) && CloseStep(r) == CloseStep(s).(pendingTags := tags, lineNo := s.lineNo + |PrintTags(tags, l)|)
    ensures r.pendingTags == tags && r.lineNo == s.lineNo + |PrintTags(tags, l)| && r.section == s.section
    ensures Finish(r) == Finish(s)
  {
    var c := CloseStep(s);
    if tags == [] {
      CloseFrame(s);
      RunNone(s);
    } else {
      RunOne(s, l.indent + Join(tags, " "));
      TagsReadIs(s, tags, l, c, r);
      TaggedFacts(s, tags, c, r);
    }
  }

  // ---------------------------------------------------------------- scenarios

  lemma SettledFacts(t: State, d: State)
    requires Ready(t) && d == Settled(On(t, 1))
    ensures Closed(d) && d.feature == Finish(t) && d.pendingTags == t.pendingTags && d.lineNo == t.lineNo + 1
    ensures d.examplesHeaders.None? && d.examplesRows == [] && d.examplesTags == []
  {
    CloseOn(t, 1);
    CloseFrame(t);
    CloseIsClosed(t);
  }

  lemma ScenarioOpens(d: State, name: string, scenario: Scenario, r: State)
    requires Closed(d) && d.examplesHeaders.None? && scenario == Scenario(name, d.pendingTags, [], d.lineNo, None)
    requires r == d.(feature := WithScenarios(d.feature, [scenario]), pendingTags := [],
                     section := OfScenario, target := ToScenario, inExamples := false)
    ensures Plainly(r) && Listing(r) && r.target.ToScenario? && r.pendingTags == [] && r.lineNo == d.lineNo
    ensures r.feature == WithScenarios(d.feature, [scenario])
  {
  }

  lemma ScenarioStepIs(x: State, name: string, d: State, r: State)
    requires Valid(x) && d == Settled(x) && r == ScenarioStep(x, name)
    ensures var scenario := Scenario(name, d.pendingTags, [], d.lineNo, None);
            r == d.(feature := WithScenarios(d.feature, [scenario]), pendingTags := [],
                    section := OfScenario, target := ToScenario, inExamples := false)
  {
  }

  lemma ScenarioHeader(t: State, word: string, name: string, l: Layout, r: State)
    requires Ready(t) && (Spells(word, SCENARIO) || Spells(word, EXAMPLE)) && Inline(name) && GoodLayout(l)
    requires r == LineStep(t, l.indent + Head(word, name))
    ensures Plainly(r) && Listing(r) && r.target.ToScenario? && r.pendingTags == [] && r.lineNo == t.lineNo + 1
    ensures r.feature == WithScenarios(Finish(t), [Scenario(name, t.pendingTags, [], t.lineNo + 1, None)])
  {
    var x := On(t, 1);
    var d := Settled(x);
    ScenarioReads(t, word, name, l);
    SettledFacts(t, d);
    ScenarioStepIs(x, name, d, r);
    ScenarioOpens(d, name, Scenario(name, d.pendingTags, [], d.lineNo, None), r);
  }

  lemma ScenarioReads(t: State, word: string, name: string, l: Layout)
    requires Ready(t) && (Spells(word, SCENARIO) || Spells(word, EXAMPLE)) && Inline(name) && GoodLayout(l)
    ensures LineStep(t, l.indent + Head(word, name)) == ScenarioStep(On(t, 1), name)
  {
    SpelledTrimmed(word, if Spells(word, SCENARIO) then SCENARIO else EXAMPLE);
    HeadIsTrimmed(word, name);
    Reads(t, l.indent, Head(word, name));
    ScenarioLine(word, name);
  }

  lemma {:induction false} AddToScenario(s: State, steps: seq<Step>, r: State)
    requires Plainly(s) && s.target.ToScenario? && r == AddSteps(s, steps)
    ensures Plainly(r) && r.pendingTags == s.pendingTags && r.lineNo == s.lineNo && r.section == s.section
    ensures var k := |s.feature.scenarios| - 1; var last := s.feature.scenarios[k];
            r.feature == s.feature.(scenarios := s.feature.scenarios[k := last.(steps := last.steps + steps)])
    decreases |steps|
  {
    var k := |s.feature.scenarios| - 1;
    var last := s.feature.scenarios[k];
    if steps == [] {
      assert last.steps + [] == last.steps;
    } else {
      AddToScenario(PushStep(s, steps[0]), steps[1..], r);
      assert last.steps + [steps[0]] + steps[1..] == last.steps + steps;
    }
  }

  lemma LastFilled(f: Feature, scenario: Scenario, steps: seq<Step>)
    requires scenario.steps == []
    ensures var g := WithScenarios(f, [scenario]); var k := |g.scenarios| - 1;
            g.(scenarios := g.scenarios[k := g.scenarios[k].(steps := g.scenarios[k].steps + steps)])
            == WithScenarios(f, [scenario.(steps := steps)])
  {
    assert [] + steps == steps;
  }

  /** The header of a scenario, and the list its steps go to. */
  lemma ScenarioSteps(head: State, f: Feature, scenario: Scenario, steps: seq<SourceStep>, l: Layout, r: State)
    requires Plainly(head) && Listing(head) && head.target.ToScenario? && head.pendingTags == []
    requires head.feature == WithScenarios(f, [scenario]) && scenario.steps == []
    requires GoodSteps(steps) && GoodLayout(l) && r == RunLines(head, PrintSteps(steps, l))
    ensures Between(r) && r.lineNo == head.lineNo + |PrintSteps(steps, l)|
    ensures Finish(r) == WithScenarios(f, [scenario.(steps := StepsMeaning(steps))])
  {
    CloseClosed(head);
    var u, c := On(head, |PrintSteps(steps, l)|), CloseStep(r);
    StepsRun(head, steps, l, u, r);
    OnKeeps(head, |PrintSteps(steps, l)|, u);
    ScenarioEnds(u, f, scenario, StepsMeaning(steps), r, c);
  }

  lemma OnKeeps(s: State, n: nat, u: State)
    requires Plainly(s) && u == On(s, n)
    ensures Plainly(u) && u.target == s.target && u.pendingTags == s.pendingTags && u.feature == s.feature
    ensures u.lineNo == s.lineNo + n
  {
  }

  lemma ScenarioEnds(u: State, f: Feature, scenario: Scenario, steps: seq<Step>, r: State, c: State)
    requires Plainly(u) && u.target.ToScenario? && u.pendingTags == []
    requires u.feature == WithScenarios(f, [scenario]) && scenario.steps == []
    requires Ready(r) && c == CloseStep(r) && c == AddSteps(u, steps)
    ensures Between(r) && r.lineNo == u.lineNo
    ensures Finish(r) == WithScenarios(f, [scenario.(steps := steps)])
  {
    AddToScenario(u, steps, c);
    CloseFrame(r);
    FinishClose(r, c);
    FinishPlainly(c);
    LastFilled(f, scenario, steps);
  }

  /** The header of an item and its steps, once the tags are read. */
  lemma ScenarioRun(t: State, item: Item, l: Layout, f: Feature, scenario: Scenario, r: State)
    requires Ready(t) && item.Plain? && GoodItem(item) && GoodLayout(l) && f == Finish(t)
    requires scenario == Scenario(item.name, t.pendingTags, StepsMeaning(item.steps), t.lineNo + 1, None)
    requires r == RunLines(t, [l.indent + Head(item.word, item.name)] + PrintSteps(item.steps, l))
    ensures Between(r) && r.lineNo == t.lineNo + 1 + |PrintSteps(item.steps, l)|
    ensures Finish(r) == WithScenarios(f, [scenario])
  {
    var head := LineStep(t, l.indent + Head(item.word, item.name));
    RunFirst(t, l.indent + Head(item.word, item.name), PrintSteps(item.steps, l));
    ScenarioHeader(t, item.word, item.name, l, head);
    ScenarioSteps(head, f, scenario.(steps := []), item.steps, l, r);
  }

  // ---------------------------------------------------------------- outlines

  lemma OutlineStepIs(x: State, name: string, d: State, r: State)
    requires Valid(x) && d == Settled(x) && r == OutlineStep(x, name)
    ensures r == d.(outline := Some(Scenario(name, d.pendingTags, [], d.lineNo, None)), pendingTags := [],
                    section := OfOutline, target := ToOutline, inExamples := false)
    ensures !d.lastStep.InOutline?
  {
  }

  lemma OutlineOpens(d: State, name: string, r: State)
    requires Closed(d) && d.examplesHeaders.None? && !d.lastStep.InOutline?
    requires r == d.(outline := Some(Scenario(name, d.pendingTags, [], d.lineNo, None)), pendingTags := [],
                     section := OfOutline, target := ToOutline, inExamples := false)
    ensures Plainly(r) && Listing(r) && r.pendingTags == [] && r.lineNo == d.lineNo
    ensures r.target.ToOutline? && r.section.OfOutline? && r.feature == d.feature
    ensures r.outline == Some(Scenario(name, d.pendingTags, [], d.lineNo, None))
  {
  }

  lemma OutlineHeader(t: State, word: string, name: string, l: Layout, r: State)
    requires Ready(t) && (Spells(word, OUTLINE) || Spells(word, TEMPLATE)) && Inline(name) && GoodLayout(l)
    requires r == LineStep(t, l.indent + Head(word, name))
    ensures Plainly(r) && Listing(r) && r.target.ToOutline? && r.pendingTags == [] && r.lineNo == t.lineNo + 1
    ensures r.section.OfOutline? && r.feature == Finish(t)
    ensures r.outline == Some(Scenario(name, t.pendingTags, [], t.lineNo + 1, None))
  {
    var x := On(t, 1);
    var d := Settled(x);
    OutlineReads(t, word, name, l);
    SettledFacts(t, d);
    OutlineStepIs(x, name, d, r);
    OutlineOpens(d, name, r);
  }

  lemma OutlineReads(t: State, word: string, name: string, l: Layout)
    requires Ready(t) && (Spells(word, OUTLINE) || Spells(word, TEMPLATE)) && Inline(name) && GoodLayout(l)
    ensures LineStep(t, l.indent + Head(word, name)) == OutlineStep(On(t, 1), name)
  {
    SpelledTrimmed(word, if Spells(word, OUTLINE) then OUTLINE else TEMPLATE);
    HeadIsTrimmed(word, name);
    Reads(t, l.indent, Head(word, name));
    OutlineLine(word, name);
  }

  lemma {:induction false} AddToOutline(s: State, steps: seq<Step>, r: State)
    requires Plainly(s) && s.target.ToOutline? && r == AddSteps(s, steps)
    ensures Plainly(r) && r.pendingTags == s.pendingTags && r.lineNo == s.lineNo && r.section == s.section
    ensures r.feature == s.feature && r.outline == Some(s.outline.value.(steps := s.outline.value.steps + steps))
    decreases |steps|
  {
    if steps == [] {
      assert s.outline.value.steps + [] == s.outline.value.steps;
    } else {
      AddToOutline(PushStep(s, steps[0]), steps[1..], r);
      assert s.outline.value.steps + [steps[0]] + steps[1..] == s.outline.value.steps + steps;
    }
  }

  /** Inside an outline whose template is known: finishing here would return f. */
  predicate InTemplate(s: State, template: Scenario, f: Feature) {
    Between(s) && s.section.OfOutline? && CloseStep(s).outline == Some(template) && Finish(s) == f
  }

  lemma TemplateRun(t: State, item: Item, l: Layout, template: Scenario, r: State)
    requires Ready(t) && item.Outline? && GoodItem(item) && GoodLayout(l)
    requires r == RunLines(t, [l.indent + Head(item.word, item.name)] + PrintSteps(item.steps, l))
    requires template == Scenario(item.name, t.pendingTags, StepsMeaning(item.steps), t.lineNo + 1, None)
    ensures InTemplate(r, template, Finish(t)) && r.lineNo == t.lineNo + 1 + |PrintSteps(item.steps, l)|
  {
    var head := LineStep(t, l.indent + Head(item.word, item.name));
    RunFirst(t, l.indent + Head(item.word, item.name), PrintSteps(item.steps, l));
    OutlineHeader(t, item.word, item.name, l, head);
    CloseClosed(head);
    var u := On(head, |PrintSteps(item.steps, l)|);
    StepsRun(head, item.steps, l, u, r);
    var c := CloseStep(r);
    AddToOutline(u, StepsMeaning(item.steps), c);
    CloseFrame(r);
    FinishClose(r, c);
    FinishPlainly(c);
    assert [] + StepsMeaning(item.steps) == StepsMeaning(item.steps);
  }

  /** Examples rows are collected: the first is the header. */
  function Collected(s: State, table: Table): State {
    if table == [] then s
    else if s.examplesHeaders.None?
    then s.(examplesHeaders := Some(table[0]), examplesRows := s.examplesRows + table[1..])
    else s.(examplesRows := s.examplesRows + table)
  }

  lemma CollectFirst(s: State, table: Table, t: State)
    requires table != [] && t == Collected(s, [table[0]])
    ensures Collected(t, table[1..]) == Collected(s, table)
  {
    assert s.examplesRows + [] == s.examplesRows;
    assert [table[0]][1..] == [];
    if s.examplesHeaders.Some? {
      assert s.examplesRows + [table[0]] + table[1..] == s.examplesRows + table;
    }
  }

  lemma CollectRow(s: State, cells: seq<string>)
    requires Ready(s) && s.inExamples
    ensures RowStep(On(s, 1), cells) == Collected(On(s, 1), [cells])
  {
    assert s.examplesRows + [cells][1..] == s.examplesRows;
  }

  lemma {:induction false} CollectRun(s: State, table: Table, l: Layout, t: State)
    requires Ready(s) && s.inExamples && GoodTable(table) && GoodLayout(l)
    requires t == On(s, |table|)
    ensures RunLines(s, PrintTable(table, l)) == Collected(t, table)
    decreases |table|
  {
    if table == [] {
      RunNone(s);
    } else {
      var next := Collected(On(s, 1), [table[0]]);
      TableFirst(table, l);
      ReadsRow(s, table[0], l);
      CollectRow(s, table[0]);
      RunFirst(s, l.indent + WriteRow(table[0], l.pad), PrintTable(table[1..], l));
      CollectRun(next, table[1..], l, On(next, |table| - 1));
      assert On(next, |table| - 1) == Collected(t, [table[0]]);
      CollectFirst(t, table, On(next, |table| - 1));
    }
  }

  lemma ExamplesHeader(t: State, word: string, title: string, l: Layout, template: Scenario, r: State)
    requires Ready(t) && t.section.OfOutline? && CloseStep(t).outline == Some(template)
    requires (Spells(word, EXAMPLES) || Spells(word, SCENARIOS)) && Inline(title) && GoodLayout(l)
    requires r == LineStep(t, l.indent + Head(word, title))
    ensures Plainly(r) && r.inExamples && r.pendingTags == [] && r.lineNo == t.lineNo + 1 && r.section.OfOutline?
    ensures r.feature == Finish(t) && r.outline == Some(template)
    ensures r.examplesTags == t.pendingTags && r.examplesRows == []
  {
    ExamplesReads(t, word, title, l);
    ExamplesOpen(t, template, On(t, 1), CloseStep(t), r);
  }

  lemma ExamplesReads(t: State, word: string, title: string, l: Layout)
    requires Ready(t) && Inline(title) && GoodLayout(l)
    requires Spells(word, EXAMPLES) || Spells(word, SCENARIOS)
    ensures LineStep(t, l.indent + Head(word, title)) == ExamplesStep(On(t, 1))
  {
    SpelledTrimmed(word, if Spells(word, EXAMPLES) then EXAMPLES else SCENARIOS);
    HeadIsTrimmed(word, title);
    Reads(t, l.indent, Head(word, title));
    ExamplesLine(word, title);
  }

  lemma ExamplesOpen(t: State, template: Scenario, u: State, c: State, r: State)
    requires Ready(t) && t.section.OfOutline? && c == CloseStep(t) && c.outline == Some(template)
    requires u == On(t, 1) && r == ExamplesStep(u)
    ensures Plainly(r) && r.inExamples && r.pendingTags == [] && r.lineNo == t.lineNo + 1 && r.section.OfOutline?
    ensures r.feature == Finish(t) && r.outline == Some(template)
    ensures r.examplesTags == t.pendingTags && r.examplesRows == []
  {
    CloseOn(t, 1);
    CloseFrame(t);
  }

  /** A collected block, were the file to end here, is expanded: one scenario per row. */
  lemma FinishCollected(e: State, table: Table, n: nat, template: Scenario, block: Block, r: State)
    requires Plainly(e) && e.pendingTags == [] && e.section.OfOutline? && e.outline == Some(template)
    requires e.examplesRows == [] && e.examplesTags == block.tags && block.table == table
    requires r == Collected(On(e, n), table)
    ensures InTemplate(r, template, WithScenarios(e.feature, BlockMeaning(template, block))) && r.lineNo == e.lineNo + n
  {
    CloseClosed(r);
    if table == [] {
      assert e.feature.scenarios + [] == e.feature.scenarios;
    } else {
      assert [] + table[1..] == table[1..];
    }
  }

  lemma BlockRun(s: State, block: Block, l: Layout, template: Scenario, f: Feature, r: State)
    requires InTemplate(s, template, f) && GoodBlock(block) && GoodLayout(l)
    requires r == RunLines(s, PrintBlock(block, l))
    ensures InTemplate(r, template, WithScenarios(f, BlockMeaning(template, block)))
    ensures r.lineNo == s.lineNo + |PrintBlock(block, l)|
  {
    var line := l.indent + Head(block.word, block.title);
    var t := RunLines(s, PrintTags(block.tags, l));
    TagsRun(s, block.tags, l, t);
    RunAppend(s, PrintTags(block.tags, l), [line] + PrintTable(block.table, l));
    var e := LineStep(t, line);
    RunFirst(t, line, PrintTable(block.table, l));
    ExamplesHeader(t, block.word, block.title, l, template, e);
    CollectRun(e, block.table, l, On(e, |block.table|));
    FinishCollected(e, block.table, |block.table|, template, block, r);
  }

  lemma {:induction false} BlocksRun(s: State, blocks: seq<Block>, l: Layout, template: Scenario, f: Feature, r: State)
    requires InTemplate(s, template, f) && (forall i :: 0 <= i < |blocks| ==> GoodBlock(blocks[i])) && GoodLayout(l)
    requires r == RunLines(s, PrintBlocks(blocks, l))
    ensures InTemplate(r, template, WithScenarios(f, BlocksMeaning(template, blocks)))
    ensures r.lineNo == s.lineNo + |PrintBlocks(blocks, l)|
    decreases |blocks|
  {
    if blocks == [] {
      RunNone(s);
      MoreScenarios(f, [], []);
    } else {
      var t := RunLines(s, PrintBlock(blocks[0], l));
      RunAppend(s, PrintBlock(blocks[0], l), PrintBlocks(blocks[1..], l));
      BlockRun(s, blocks[0], l, template, f, t);
      BlocksRun(t, blocks[1..], l, template, WithScenarios(f, BlockMeaning(template, blocks[0])), r);
      MoreScenarios(f, BlockMeaning(template, blocks[0]), BlocksMeaning(template, blocks[1..]));
    }
  }

  // ---------------------------------------------------------------- items

  lemma PlainLayout(item: Item, l: Layout, n: nat, body: seq<string>, scenario: Scenario)
    requires item.Plain? && body == [l.indent + Head(item.word, item.name)] + PrintSteps(item.steps, l)
    requires scenario == Scenario(item.name, item.tags, StepsMeaning(item.steps), n + |PrintTags(item.tags, l)| + 1, None)
    ensures PrintItem(item, l) == PrintTags(item.tags, l) + body
    ensures |PrintItem(item, l)| == |PrintTags(item.tags, l)| + 1 + |PrintSteps(item.steps, l)|
    ensures ItemMeaning(item, n) == [scenario]
  {
    assert PrintSteps(item.steps, l) + [] == PrintSteps(item.steps, l);
  }

  lemma PlainRun(s: State, item: Item, l: Layout, f: Feature, n: nat, r: State)
    requires Between(s) && item.Plain? && GoodItem(item) && GoodLayout(l) && f == Finish(s) && n == s.lineNo
    requires r == RunLines(s, PrintItem(item, l))
    ensures Between(r) && r.lineNo == n + |PrintItem(item, l)|
    ensures Finish(r) == WithScenarios(f, ItemMeaning(item, n))
  {
    var t := RunLines(s, PrintTags(item.tags, l));
    var body := [l.indent + Head(item.word, item.name)] + PrintSteps(item.steps, l);
    TagsRun(s, item.tags, l, t);
    var scenario := Scenario(item.name, item.tags, StepsMeaning(item.steps), t.lineNo + 1, None);
    PlainLayout(item, l, n, body, scenario);
    RunAppend(s, PrintTags(item.tags, l), body);
    ScenarioRun(t, item, l, f, scenario, r);
  }

  lemma OutlineLayout(item: Item, l: Layout, n: nat, body: seq<string>, template: Scenario)
    requires item.Outline? && body == [l.indent + Head(item.word, item.name)] + PrintSteps(item.steps, l)
    requires template == Scenario(item.name, item.tags, StepsMeaning(item.steps), n + |PrintTags(item.tags, l)| + 1, None)
    ensures PrintItem(item, l) == PrintTags(item.tags, l) + (body + PrintBlocks(item.blocks, l))
    ensures |PrintItem(item, l)|
            == |PrintTags(item.tags, l)| + 1 + |PrintSteps(item.steps, l)| + |PrintBlocks(item.blocks, l)|
    ensures ItemMeaning(item, n) == BlocksMeaning(template, item.blocks)
  {
    Reassociate([l.indent + Head(item.word, item.name)], PrintSteps(item.steps, l), PrintBlocks(item.blocks, l));
  }

  lemma Reassociate(a: seq<string>, b: seq<string>, c: seq<string>)
    ensures a + b + c == a + (b + c)
  {
  }

  lemma OutlineRun(s: State, item: Item, l: Layout, f: Feature, n: nat, r: State)
    requires Between(s) && item.Outline? && GoodItem(item) && GoodLayout(l) && f == Finish(s) && n == s.lineNo
    requires r == RunLines(s, PrintItem(item, l))
    ensures Between(r) && r.lineNo == n + |PrintItem(item, l)|
    ensures Finish(r) == WithScenarios(f, ItemMeaning(item, n))
  {
    var body := [l.indent + Head(item.word, item.name)] + PrintSteps(item.steps, l);
    var blocks, t := PrintBlocks(item.blocks, l), RunLines(s, PrintTags(item.tags, l));
    TagsRun(s, item.tags, l, t);
    var template := Scenario(item.name, item.tags, StepsMeaning(item.steps), t.lineNo + 1, None);
    OutlineLayout(item, l, n, body, template);
    RunAppend(s, PrintTags(item.tags, l), body + blocks);
    RunAppend(t, body, blocks);
    var u := RunLines(t, body);
    TemplateRun(t, item, l, template, u);
    BlocksRun(u, item.blocks, l, template, f, r);
  }

  lemma ItemsPrinted(items: seq<Item>, l: Layout)
    requires items != []
    ensures PrintItems(items, l) == PrintItem(items[0], l) + PrintItems(items[1..], l)
  {
  }

  lemma ItemsFirst(items: seq<Item>, l: Layout, n: nat, m: nat, first: seq<Scenario>, rest: seq<Scenario>)
    requires items != [] && m == n + |PrintItem(items[0], l)|
    requires first == ItemMeaning(items[0], n) && rest == ItemsMeaning(items[1..], l, m)
    ensures ItemsMeaning(items, l, n) == first + rest
  {
  }

  lemma {:induction false} ItemsRun(s: State, items: seq<Item>, l: Layout, f: Feature, n: nat, r: State)
    requires Between(s) && (forall i :: 0 <= i < |items| ==> GoodItem(items[i])) && GoodLayout(l)
    requires f == Finish(s) && n == s.lineNo && r == RunLines(s, PrintItems(items, l))
    ensures Between(r) && Finish(r) == WithScenarios(f, ItemsMeaning(items, l, n))
    decreases |items|
  {
    if items == [] {
      RunNone(s);
      MoreScenarios(f, [], []);
    } else {
      var t, first := RunLines(s, PrintItem(items[0], l)), ItemMeaning(items[0], n);
      if items[0].Plain? { PlainRun(s, items[0], l, f, n, t); } else { OutlineRun(s, items[0], l, f, n, t); }
      var rest := ItemsMeaning(items[1..], l, t.lineNo);
      ItemsFirst(items, l, n, t.lineNo, first, rest);
      ItemsPrinted(items, l);
      RunAppend(s, PrintItem(items[0], l), PrintItems(items[1..], l));
      ItemsRun(t, items[1..], l, WithScenarios(f, first), t.lineNo, r);
      MoreScenarios(f, first, rest);
    }
  }

  // ---------------------------------------------------------------- header and background

  lemma FeatureHeader(s: State, word: string, name: string, l: Layout, r: State)
    requires Between(s.(pendingTags := [])) && s.lastStep.NoStep? && Spells(word, FEATURE) && Inline(name) && GoodLayout(l)
    requires r == LineStep(s, l.indent + Head(word, name))
    ensures r == On(s, 1).(feature := s.feature.(name := name, tags := s.pendingTags), pendingTags := [], section := OfFeature)
  {
    SpelledTrimmed(word, FEATURE);
    HeadIsTrimmed(word, name);
    Reads(s, l.indent, Head(word, name));
    FeatureLine(word, name);
  }

  /** Description lines collected. */
  function Told(s: State, lines: seq<string>): State {
    s.(descriptionLines := s.descriptionLines + lines)
  }

  lemma ProseReads(s: State, line: string, l: Layout)
    requires Ready(s) && s.section.OfFeature? && s.target.Nowhere? && GoodLayout(l) && GoodProse(line)
    ensures LineStep(s, l.indent + line) == Told(On(s, 1), [line])
  {
    Reads(s, l.indent, line);
  }

  lemma ToldMore(s: State, a: seq<string>, b: seq<string>, n: nat, t: State)
    requires t == Told(s, a)
    ensures Told(On(t, n), b) == Told(On(s, n), a + b)
  {
    assert s.descriptionLines + a + b == s.descriptionLines + (a + b);
  }

  lemma {:induction false} ProseRun(s: State, lines: seq<string>, l: Layout, t: State)
    requires Ready(s) && s.section.OfFeature? && s.target.Nowhere? && GoodLayout(l)
    requires forall i :: 0 <= i < |lines| ==> GoodProse(lines[i])
    requires t == On(s, |lines|)
    ensures RunLines(s, PrintProse(lines, l)) == Told(t, lines)
    decreases |lines|
  {
    if lines == [] {
      RunNone(s);
      assert s.descriptionLines + [] == s.descriptionLines;
    } else {
      var next := Told(On(s, 1), [lines[0]]);
      ProseReads(s, lines[0], l);
      RunFirst(s, l.indent + lines[0], PrintProse(lines[1..], l));
      ProseRun(next, lines[1..], l, On(next, |lines| - 1));
      ToldMore(On(s, 1), [lines[0]], lines[1..], |lines| - 1, next);
      OnOn(s, 1, |lines| - 1);
      assert [lines[0]] + lines[1..] == lines;
    }
  }

  lemma {:induction false} JoinedEnds(lines: seq<string>)
    requires lines != [] && forall i :: 0 <= i < |lines| ==> Trimmed(lines[i]) && lines[i] != ""
    ensures var s := Join(lines, "\n"); s != "" && s[0] == lines[0][0] && !IsSpace(s[|s| - 1])
  {
    if |lines| > 1 { JoinedEnds(lines[1..]); }
  }

  lemma GoodProseTrimmed(line: string)
    requires GoodProse(line)
    ensures Trimmed(line) && line != ""
  {
  }

  lemma ProseTrimmed(lines: seq<string>)
    requires forall i :: 0 <= i < |lines| ==> GoodProse(lines[i])
    ensures Trim(Join(lines, "\n")) == Join(lines, "\n")
  {
    forall i | 0 <= i < |lines| ensures Trimmed(lines[i]) && lines[i] != "" {
      GoodProseTrimmed(lines[i]);
    }
    TrimmedJoined(lines);
  }

  lemma TrimmedJoined(lines: seq<string>)
    requires forall i :: 0 <= i < |lines| ==> Trimmed(lines[i]) && lines[i] != ""
    ensures Trim(Join(lines, "\n")) == Join(lines, "\n")
  {
    if lines != [] { JoinedEnds(lines); }
    TrimSame(Join(lines, "\n"));
  }

  /** Only the header has been read. */
  predicate AtHeader(s: State, source: Source) {
    && Between(s) && s.section.OfFeature? && s.target.Nowhere? && s.lastStep.NoStep? && !s.inExamples
    && s.outline.None? && s.examplesHeaders.None?
    && s.feature == Feature(source.name, "", source.tags, [], []) && s.descriptionLines == source.description
  }

  lemma FinishHeader(s: State, source: Source)
    requires GoodSource(source) && AtHeader(s, source)
    ensures Finish(s) == HeaderMeaning(source)
  {
    ProseTrimmed(source.description);
  }

  lemma HeaderRun(source: Source, l: Layout, r: State)
    requires GoodSource(source) && GoodLayout(l)
    requires r == RunLines(START, PrintTags(source.tags, l)
                                  + ([l.indent + Head(source.word, source.name)] + PrintProse(source.description, l)))
    ensures AtHeader(r, source) && r.lineNo == |PrintTags(source.tags, l)| + 1 + |source.description|
  {
    var line, prose := l.indent + Head(source.word, source.name), PrintProse(source.description, l);
    var t := RunLines(START, PrintTags(source.tags, l));
    TagsRun(START, source.tags, l, t);
    StartTagged(source.tags, l, t);
    RunAppend(START, PrintTags(source.tags, l), [line] + prose);
    RunFirst(t, line, prose);
    FeatureHeader(t, source.word, source.name, l, LineStep(t, line));
    ProseRun(LineStep(t, line), source.description, l, On(LineStep(t, line), |source.description|));
    assert [] + source.description == source.description;
  }

  lemma StartTagged(tags: seq<string>, l: Layout, t: State)
    requires AllTags(tags) && GoodLayout(l) && Ready(t)
    requires CloseStep(t) == START.(pendingTags := tags, lineNo := |PrintTags(tags, l)|)
    ensures t == START.(pendingTags := tags, lineNo := |PrintTags(tags, l)|)
  {
  }

  lemma BackgroundHeader(s: State, source: Source, word: string, title: string, l: Layout, r: State)
    requires GoodSource(source) && AtHeader(s, source) && Spells(word, BACKGROUND) && Inline(title) && GoodLayout(l)
    requires r == LineStep(s, l.indent + Head(word, title))
    ensures Plainly(r) && Listing(r) && r.target.ToBackground? && r.pendingTags == [] && r.lineNo == s.lineNo + 1
    ensures r.feature == HeaderMeaning(source)
  {
    SpelledTrimmed(word, BACKGROUND);
    HeadIsTrimmed(word, title);
    Reads(s, l.indent, Head(word, title));
    BackgroundLine(word, title);
    ProseTrimmed(source.description);
  }

  lemma {:induction false} AddToBackground(s: State, steps: seq<Step>, r: State)
    requires Plainly(s) && s.target.ToBackground? && r == AddSteps(s, steps)
    ensures Plainly(r) && r.pendingTags == s.pendingTags && r.lineNo == s.lineNo
    ensures r.feature == s.feature.(background := s.feature.background + steps)
    decreases |steps|
  {
    if steps == [] {
      assert s.feature.background + [] == s.feature.background;
    } else {
      AddToBackground(PushStep(s, steps[0]), steps[1..], r);
      assert s.feature.background + [steps[0]] + steps[1..] == s.feature.background + steps;
    }
  }

  lemma BackgroundRun(s: State, source: Source, l: Layout, f: Feature, r: State)
    requires GoodSource(source) && AtHeader(s, source) && GoodLayout(l)
    requires f == HeaderMeaning(source).(background := BackgroundMeaning(source))
    requires r == RunLines(s, PrintBackground(source.background, l))
    ensures Between(r) && r.lineNo == s.lineNo + |PrintBackground(source.background, l)| && Finish(r) == f
  {
    if source.background.None? {
      RunNone(s);
      FinishHeader(s, source);
    } else {
      var b := source.background.value;
      var head := LineStep(s, l.indent + Head(b.word, b.title));
      RunFirst(s, l.indent + Head(b.word, b.title), PrintSteps(b.steps, l));
      BackgroundHeader(s, source, b.word, b.title, l, head);
      CloseClosed(head);
      var u := On(head, |PrintSteps(b.steps, l)|);
      StepsRun(head, b.steps, l, u, r);
      AddToBackground(u, StepsMeaning(b.steps), CloseStep(r));
      CloseFrame(r);
      FinishClose(r, CloseStep(r));
      FinishPlainly(CloseStep(r));
      assert [] + StepsMeaning(b.steps) == StepsMeaning(b.steps);
    }
  }

  // ---------------------------------------------------------------- the whole file

  lemma PrintParts(source: Source, l: Layout, header: seq<string>)
    requires header == PrintTags(source.tags, l)
                       + ([l.indent + Head(source.word, source.name)] + PrintProse(source.description, l))
    ensures Print(source, l) == header + (PrintBackground(source.background, l) + PrintItems(source.items, l))
    ensures |header| == |PrintTags(source.tags, l)| + 1 + |source.description|
  {
    var a, b := PrintTags(source.tags, l), [l.indent + Head(source.word, source.name)];
    var c, d := PrintProse(source.description, l), PrintBackground(source.background, l) + PrintItems(source.items, l);
    Reassociate(b, c, d);
    Reassociate(a, b + c, d);
  }

  lemma FirstScenarios(f: Feature, more: seq<Scenario>)
    requires f.scenarios == []
    ensures WithScenarios(f, more) == f.(scenarios := more)
  {
    assert [] + more == more;
  }

  lemma MeaningIs(source: Source, l: Layout, f: Feature, n: nat)
    requires f == HeaderMeaning(source).(background := BackgroundMeaning(source)) && n == FirstItemLine(source, l)
    ensures SourceMeaning(source, l) == f.(scenarios := ItemsMeaning(source.items, l, n)) && f.scenarios == []
  {
  }

  lemma PartsRun(source: Source, l: Layout, h: State, b: State, r: State, f: Feature, n: nat)
    requires GoodSource(source) && GoodLayout(l)
    requires AtHeader(h, source) && n == h.lineNo + |PrintBackground(source.background, l)|
    requires f == HeaderMeaning(source).(background := BackgroundMeaning(source))
    requires b == RunLines(h, PrintBackground(source.background, l)) && r == RunLines(b, PrintItems(source.items, l))
    ensures Finish(r) == WithScenarios(f, ItemsMeaning(source.items, l, n))
  {
    BackgroundRun(h, source, l, f, b);
    ItemsRun(b, source.items, l, f, n, r);
  }

  /** Reading the lines of a printed feature gives what it stands for: scenarios in source order, one per
      Examples row, each with the outline's tags and its own block's, and every line number. */
  lemma LinesRoundTrip(source: Source, l: Layout)
    requires GoodSource(source) && GoodLayout(l)
    ensures Finish(RunLines(START, Print(source, l))) == SourceMeaning(source, l)
  {
    var header := PrintTags(source.tags, l)
                  + ([l.indent + Head(source.word, source.name)] + PrintProse(source.description, l));
    var background, items := PrintBackground(source.background, l), PrintItems(source.items, l);
    PrintParts(source, l, header);
    RunAppend(START, header, background + items);
    var h := RunLines(START, header);
    HeaderRun(source, l, h);
    RunAppend(h, background, items);
    var f, n := HeaderMeaning(source).(background := BackgroundMeaning(source)), FirstItemLine(source, l);
    PartsRun(source, l, h, RunLines(h, background), RunLines(h, background + items), f, n);
    MeaningIs(source, l, f, n);
    FirstScenarios(f, ItemsMeaning(source.items, l, n));
  }

  // ---------------------------------------------------------------- the text

  predicate AllOneLine(lines: seq<string>) {
    forall i :: 0 <= i < |lines| ==> OneLine(lines[i])
  }

  /** A trimmed text without newlines, indented, is one line. */
  lemma IndentedLine(indent: string, line: string)
    requires '\n' !in indent && Inline(line) && line != ""
    ensures OneLine(indent + line)
  {
    var whole := indent + line;
    assert whole[|whole| - 1] == line[|line| - 1];
  }

  lemma HeadInline(word: string, text: string)
    requires word != "" && Inline(word) && Inline(text)
    ensures Inline(Head(word, text)) && Head(word, text) != ""
  {
  }

  /** A keyword holds no newline however it is spelled. */
  lemma SpelledInline(word: string, keyword: string)
    requires Spells(word, keyword) && '\n' !in keyword
    ensures '\n' !in word
  {
    forall c | c in word ensures c != '\n' {
      var i :| 0 <= i < |word| && word[i] == c;
      assert Fold(word)[i] == FoldChar(c) && Fold(word)[i] in keyword;
    }
  }

  lemma NoSpaceInline(s: string)
    requires NoSpace(s)
    ensures '\n' !in s
  {
    forall c | c in s ensures c != '\n' {
      var i :| 0 <= i < |s| && s[i] == c;
      assert !IsSpace(s[i]);
    }
  }

  lemma HeadLineIsOne(indent: string, word: string, keyword: string, text: string)
    requires '\n' !in indent && Spells(word, keyword) && Inline(text)
    requires keyword in [FEATURE, BACKGROUND, OUTLINE, TEMPLATE, SCENARIO, EXAMPLE, EXAMPLES, SCENARIOS]
    ensures OneLine(indent + Head(word, text))
  {
    SpelledInline(word, keyword);
    SpelledTrimmed(word, keyword);
    HeadInline(word, text);
    IndentedLine(indent, Head(word, text));
  }

  lemma {:induction false} EscapedLine(cell: string)
    ensures '\n' !in Escape(cell)
  {
    if cell != "" { EscapedLine(cell[1..]); }
  }

  lemma {:induction false} WrittenLine(cells: seq<string>, pad: string)
    requires '\n' !in pad
    ensures '\n' !in WriteCells(cells, pad)
  {
    if cells != [] {
      EscapedLine(cells[0]);
      WrittenLine(cells[1..], pad);
    }
  }

  lemma {:induction false} TableLines(table: Table, l: Layout)
    requires GoodLayout(l)
    ensures AllOneLine(PrintTable(table, l))
  {
    if table != [] {
      RowTrimmed(table[0], l.pad);
      WrittenLine(table[0], l.pad);
      IndentedLine(l.indent, WriteRow(table[0], l.pad));
      TableLines(table[1..], l);
    }
  }

  lemma {:induction false} TagsLine(tags: seq<string>)
    requires AllTags(tags)
    ensures '\n' !in Join(tags, " ")
  {
    if tags != [] {
      NoSpaceInline(tags[0]);
      TagsLine(tags[1..]);
    }
  }

  lemma TagLines(tags: seq<string>, l: Layout)
    requires AllTags(tags) && GoodLayout(l)
    ensures AllOneLine(PrintTags(tags, l))
  {
    if tags != [] {
      TagsTrimmed(tags);
      TagsLine(tags);
      IndentedLine(l.indent, Join(tags, " "));
    }
  }

  lemma MediaInline(fence: string, media: string)
    requires IsFence(fence) && NoSpace(media)
    ensures Inline(fence + media) && fence + media != ""
  {
    FenceTrimmed(fence, media);
    NoSpaceInline(media);
  }

  lemma DocLinesAre(doc: DocString, l: Layout)
    requires GoodDoc(doc) && GoodLayout(l)
    ensures AllOneLine(PrintDoc(doc, l))
  {
    MediaInline(doc.fence, doc.media);
    MediaInline(doc.fence, "");
    assert doc.fence + "" == doc.fence;
    IndentedLine(l.indent, doc.fence + doc.media);
    IndentedLine(l.indent, doc.fence);
  }

  lemma StepLines(step: SourceStep, l: Layout)
    requires GoodStep(step) && GoodLayout(l)
    ensures AllOneLine(PrintStep(step, l))
  {
    KeywordOpens(step.keyword);
    KeywordInline(step.keyword);
    HeadInline(step.keyword, step.text);
    IndentedLine(l.indent, Head(step.keyword, step.text));
    if step.doc.Some? { DocLinesAre(step.doc.value, l); }
    if step.table.Some? { TableLines(step.table.value, l); }
    StepLength(step, l);
    OneLineParts([l.indent + Head(step.keyword, step.text)], DocPart(step, l), TablePart(step, l));
  }

  lemma OneLineParts(a: seq<string>, b: seq<string>, c: seq<string>)
    requires AllOneLine(a) && AllOneLine(b) && AllOneLine(c)
    ensures AllOneLine(a + (b + c))
  {
  }

  lemma KeywordInline(keyword: string)
    requires keyword in STEP_KEYWORDS
    ensures '\n' !in keyword
  {
  }

  lemma {:induction false} StepsLines(steps: seq<SourceStep>, l: Layout)
    requires GoodSteps(steps) && GoodLayout(l)
    ensures AllOneLine(PrintSteps(steps, l))
  {
    if steps != [] {
      StepLines(steps[0], l);
      StepsLines(steps[1..], l);
    }
  }

  lemma {:induction false} BlocksLines(blocks: seq<Block>, l: Layout)
    requires (forall i :: 0 <= i < |blocks| ==> GoodBlock(blocks[i])) && GoodLayout(l)
    ensures AllOneLine(PrintBlocks(blocks, l))
  {
    if blocks != [] {
      var b := blocks[0];
      TagLines(b.tags, l);
      HeadLineIsOne(l.indent, b.word, if Spells(b.word, EXAMPLES) then EXAMPLES else SCENARIOS, b.title);
      TableLines(b.table, l);
      BlocksLines(blocks[1..], l);
    }
  }

  /** The keyword an item's word spells. */
  function ItemKeyword(item: Item): string {
    match item
    case Plain(word, _, _, _) => if Spells(word, SCENARIO) then SCENARIO else EXAMPLE
    case Outline(word, _, _, _, _) => if Spells(word, OUTLINE) then OUTLINE else TEMPLATE
  }

  lemma ItemLines(item: Item, l: Layout)
    requires GoodItem(item) && GoodLayout(l)
    ensures AllOneLine(PrintItem(item, l))
  {
    TagLines(item.tags, l);
    HeadLineIsOne(l.indent, item.word, ItemKeyword(item), item.name);
    StepsLines(item.steps, l);
    if item.Outline? { BlocksLines(item.blocks, l); }
  }

  lemma {:induction false} ItemsLines(items: seq<Item>, l: Layout)
    requires (forall i :: 0 <= i < |items| ==> GoodItem(items[i])) && GoodLayout(l)
    ensures AllOneLine(PrintItems(items, l))
  {
    if items != [] {
      ItemLines(items[0], l);
      ItemsLines(items[1..], l);
    }
  }

  lemma {:induction false} ProseLines(lines: seq<string>, l: Layout)
    requires (forall i :: 0 <= i < |lines| ==> GoodProse(lines[i])) && GoodLayout(l)
    ensures AllOneLine(PrintProse(lines, l))
  {
    if lines != [] {
      IndentedLine(l.indent, lines[0]);
      ProseLines(lines[1..], l);
    }
  }

  lemma BackgroundLines(background: Option<Background>, l: Layout)
    requires (background.Some? ==> GoodBackground(background.value)) && GoodLayout(l)
    ensures AllOneLine(PrintBackground(background, l))
  {
    if background.Some? {
      var b := background.value;
      HeadLineIsOne(l.indent, b.word, BACKGROUND, b.title);
      StepsLines(b.steps, l);
    }
  }

  lemma PrintLines(source: Source, l: Layout)
    requires GoodSource(source) && GoodLayout(l)
    ensures AllOneLine(Print(source, l))
  {
    TagLines(source.tags, l);
    HeadLineIsOne(l.indent, source.word, FEATURE, source.name);
    ProseLines(source.description, l);
    BackgroundLines(source.background, l);
    ItemsLines(source.items, l);
    var head, prose := [l.indent + Head(source.word, source.name)], PrintProse(source.description, l);
    var rest := PrintBackground(source.background, l) + PrintItems(source.items, l);
    OneLineParts(PrintTags(source.tags, l), head, prose + rest);
  }

  /** Parsing the text of any well-formed feature, however indented and with either line end,
      returns exactly what it stands for. */
  lemma FeatureRoundTrip(source: Source, l: Layout, eol: string)
    requires GoodSource(source) && GoodLayout(l) && LineEnd(eol)
    ensures Parsed(Join(Print(source, l), eol)) == SourceMeaning(source, l)
  {
    PrintLines(source, l);
    SplitJoined(Print(source, l), eol);
    LinesRoundTrip(source, l);
  }
}
