// The feature reader as it runs: fields updated line by line, proved against the parser's moves.
module GherkinReader {
  import opened Text
  import opened GherkinRow
  import opened GherkinLines
  import opened GherkinParser

  class FeatureReader {
    var feature: Feature
    var pendingTags: seq<string>
    var descriptionLines: seq<string>
    var section: Section
    var target: Target
    var inExamples: bool
    var examplesHeaders: Option<seq<string>>
    var examplesRows: Table
    var examplesTags: seq<string>
    var outline: Option<Scenario>
    var lastStep: Last
    var docstring: Option<seq<string>>
    var fence: Option<string>
    var tableRows: Option<Table>
    var lineNo: nat

    ghost function Now(): State
      reads this
    {
      State(feature, pendingTags, descriptionLines, section, target, inExamples, examplesHeaders, examplesRows,
            examplesTags, outline, lastStep, docstring, fence, tableRows, lineNo)
    }

    ghost predicate Valid()
      reads this
    {
      GherkinParser.Valid(Now())
    }

    constructor ()
      ensures Valid() && Now() == START
    {
      feature, pendingTags, descriptionLines := EMPTY_FEATURE, [], [];
      section, target, inExamples := Outside, Nowhere, false;
      examplesHeaders, examplesRows, examplesTags, outline := None, [], [], None;
      lastStep, docstring, fence, tableRows, lineNo := NoStep, None, None, None, 0;
    }

    /** Attach the doc string and the table collected so far to the last step, where it lives. */
    method CloseStep()
      requires Valid()
      modifies this
      ensures Valid() && Now() == GherkinParser.CloseStep(old(Now()))
    {
      match lastStep {
        case NoStep => return;
        case Lost =>
        case InBackground =>
          feature := feature.(background := AttachLast(feature.background, docstring, tableRows));
        case InScenario(k) =>
          var scenario := feature.scenarios[k];
          var changed := scenario.(steps := AttachLast(scenario.steps, docstring, tableRows));
          feature := feature.(scenarios := feature.scenarios[k := changed]);
        case InOutline =>
          outline := Some(outline.value.(steps := AttachLast(outline.value.steps, docstring, tableRows)));
      }
      docstring, tableRows := None, None;
    }

    method ExpandExamplesBlock()
      requires Valid()
      modifies this
      ensures Valid() && Now() == ExpandBlock(old(Now()))
      ensures var was, now := old(feature).scenarios, feature.scenarios;
              && was <= now && examplesHeaders.None? && examplesRows == [] && examplesTags == []
              && if old(outline).None? || old(examplesHeaders).None? then now == was
                 else FromRows(old(outline).value, old(examplesHeaders).value, old(examplesTags), old(examplesRows), now[|was|..])
    {
      ghost var was := feature.scenarios;
      if outline.Some? && examplesHeaders.Some? {
        RowsExpand(outline.value, examplesHeaders.value, examplesTags, examplesRows);
        ghost var before := feature;
        ghost var expansion := Expansion(Now());
        var i := 0;
        while i < |examplesRows|
          invariant i <= |examplesRows| == |expansion|
          invariant feature == before.(scenarios := before.scenarios + expansion[..i])
          invariant Now() == old(Now()).(feature := feature)
        {
          var scenario := ExpandRow(outline.value, examplesHeaders.value, examplesTags, examplesRows[i]);
          ExtendTaken(before.scenarios, expansion, i, scenario);
          feature := feature.(scenarios := feature.scenarios + [scenario]);
          i := i + 1;
        }
        assert expansion[..i] == expansion;
        assert feature.scenarios[|was|..] == expansion;
      } else {
        assert feature.scenarios + [] == feature.scenarios;
      }
      examplesHeaders, examplesRows, examplesTags := None, [], [];
    }

    method FlushOutline()
      requires Valid()
      modifies this
      ensures Valid() && Now() == GherkinParser.FlushOutline(old(Now()))
    {
      ExpandExamplesBlock();
      outline := None;
      if lastStep.InOutline? { lastStep := Lost; }
      if target.ToOutline? { target := Nowhere; }
    }

    method Describe()
      requires Valid()
      modifies this
      ensures Valid() && Now() == Described(old(Now()))
    {
      if section.OfFeature? {
        feature := feature.(description := Trim(Join(descriptionLines, "\n")));
      }
    }

    /** Close, flush, describe: before a scenario or an outline, and at the end. */
    method Settle()
      requires Valid()
      modifies this
      ensures Valid() && Now() == Settled(old(Now()))
    {
      CloseStep();
      FlushOutline();
      Describe();
    }

    method ReadOutlineHead(name: string)
      requires Valid()
      modifies this
      ensures Valid() && Now() == OutlineStep(old(Now()), name)
    {
      Settle();
      inExamples := false;
      outline := Some(Scenario(name, pendingTags, [], lineNo, None));
      pendingTags, section, target := [], OfOutline, ToOutline;
    }

    method ReadScenarioHead(name: string)
      requires Valid()
      modifies this
      ensures Valid() && Now() == ScenarioStep(old(Now()), name)
    {
      Settle();
      inExamples := false;
      var scenario := Scenario(name, pendingTags, [], lineNo, None);
      feature := feature.(scenarios := feature.scenarios + [scenario]);
      pendingTags, section, target := [], OfScenario, ToScenario;
    }

    method ReadExamplesHead()
      requires Valid()
      modifies this
      ensures Valid() && Now() == ExamplesStep(old(Now()))
    {
      CloseStep();
      ExpandExamplesBlock();
      inExamples, examplesTags, pendingTags, target := true, pendingTags, [], Nowhere;
    }

    method ReadBackgroundHead()
      requires Valid()
      modifies this
      ensures Valid() && Now() == BackgroundStep(old(Now()))
    {
      CloseStep();
      Describe();
      section, target := OfBackground, ToBackground;
    }

    method ReadRow(cells: seq<string>)
      requires Valid()
      modifies this
      ensures Valid() && Now() == RowStep(old(Now()), cells)
    {
      if inExamples {
        if examplesHeaders.None? { examplesHeaders := Some(cells); }
        else { examplesRows := examplesRows + [cells]; }
      } else if !lastStep.NoStep? {
        if tableRows.None? { tableRows := Some([]); }
        tableRows := Some(tableRows.value + [cells]);
      }
    }

    /** A step line adds a step to the current list. */
    method ReadStep(keyword: string, text: string)
      requires Valid() && !target.Nowhere?
      modifies this
      ensures Valid() && Now() == NewStep(old(Now()), keyword, text)
    {
      CloseStep();
      var step := Step(keyword, text, None, None);
      match target {
        case ToBackground =>
          feature, lastStep := feature.(background := feature.background + [step]), InBackground;
        case ToScenario =>
          var k := |feature.scenarios| - 1;
          var scenario := feature.scenarios[k];
          var longer := scenario.(steps := scenario.steps + [step]);
          feature, lastStep := feature.(scenarios := feature.scenarios[k := longer]), InScenario(k);
        case ToOutline =>
          outline, lastStep := Some(outline.value.(steps := outline.value.steps + [step])), InOutline;
      }
    }

    method ReadProse(text: string)
      requires Valid()
      modifies this
      ensures Valid() && Now() == ProseStep(old(Now()), text)
    {
      if section.OfFeature? { descriptionLines := descriptionLines + [text]; }
    }

    /** A line inside a doc string. */
    method ReadDocLine(raw: string)
      requires Valid() && docstring.Some?
      modifies this
      ensures Valid() && Now() == DocLine(old(Now()), raw)
    {
      if fence == Some(Trim(raw)) {
        CloseStep();
        fence := None;
      } else {
        docstring := Some(docstring.value + [raw]);
      }
    }

    method ReadTags(tags: seq<string>)
      requires Valid()
      modifies this
      ensures Valid() && Now() == TagsStep(old(Now()), tags)
    {
      CloseStep();
      pendingTags := pendingTags + tags;
    }

    method ReadFeatureHead(name: string)
      requires Valid()
      modifies this
      ensures Valid() && Now() == FeatureStep(old(Now()), name)
    {
      CloseStep();
      feature := feature.(name := name, tags := pendingTags);
      pendingTags, section := [], OfFeature;
    }

    method ReadPlainLine(line: Line, trimmed: string)
      requires Valid()
      modifies this
      ensures Valid() && Now() == PlainLine(old(Now()), line, trimmed)
    {
      match line {
        case Empty =>
        case Comment =>
        case Tags(tags) => ReadTags(tags);
        case FeatureHead(name) => ReadFeatureHead(name);
        case BackgroundHead => ReadBackgroundHead();
        case OutlineHead(name) => ReadOutlineHead(name);
        case ScenarioHead(name) => ReadScenarioHead(name);
        case ExamplesHead => ReadExamplesHead();
        case Row(cells) => ReadRow(cells);
        case FenceMark(mark) => docstring, fence := Some([]), Some(mark);
        case StepLine(keyword, text) =>
          if target.Nowhere? { ReadProse(trimmed); } else { ReadStep(keyword, text); }
        case Prose => ReadProse(trimmed);
      }
    }

    /** A counted line, given what it is outside a doc string and its trimmed text. */
    method ReadLineAs(raw: string, line: Line, trimmed: string)
      requires Valid()
      modifies this
      ensures Valid() && Now() == ReadAs(old(Now()), raw, line, trimmed)
    {
      if docstring.Some? { ReadDocLine(raw); } else { ReadPlainLine(line, trimmed); }
    }

    method ReadLine(raw: string)
      requires Valid()
      modifies this
      ensures Valid() && Now() == LineStep(old(Now()), raw)
    {
      lineNo := lineNo + 1;
      assert Now() == Counted(old(Now()));
      ReadLineAs(raw, Classify(raw), Trim(raw));
    }
  }

  lemma ExtendTaken(before: seq<Scenario>, expansion: seq<Scenario>, i: nat, next: Scenario)
    requires i < |expansion| && expansion[i] == next
    ensures before + expansion[..i] + [next] == before + expansion[..i + 1]
  {
  }

  lemma RunTail(s: State, lines: seq<string>, i: nat)
    requires Valid(s) && i < |lines|
    ensures RunLines(s, lines[i..]) == RunLines(LineStep(s, lines[i]), lines[i + 1..])
  {
    assert lines[i..][1..] == lines[i + 1..];
  }

  method ParseFeature(source: string) returns (feature: Feature)
    ensures feature == Parsed(source)
  {
    var rawLines := SplitLines(source, "");
    var reader := new FeatureReader();
    var i := 0;
    while i < |rawLines|
      invariant i <= |rawLines| && reader.Valid()
      invariant RunLines(reader.Now(), rawLines[i..]) == RunLines(START, rawLines)
    {
      RunTail(reader.Now(), rawLines, i);
      reader.ReadLine(rawLines[i]);
      i := i + 1;
    }
    reader.Settle();
    feature := reader.feature;
  }
}
