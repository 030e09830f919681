// Reading a feature file line by line: sections, steps with their attachments, and Scenario
// Outlines expanded from their Examples blocks.
module GherkinParser {
  import opened Text
  import opened GherkinRow
  import opened GherkinLines

  type Table = seq<seq<string>>

  datatype Step = Step(keyword: string, text: string, docstring: Option<string>, table: Option<Table>)

  datatype Scenario = Scenario(
    name: string, tags: seq<string>, steps: seq<Step>, lineNumber: nat, exampleRow: Option<seq<string>>)

  datatype Feature = Feature(
    name: string, description: string, tags: seq<string>, background: seq<Step>, scenarios: seq<Scenario>)

  datatype Section = Outside | OfFeature | OfBackground | OfScenario | OfOutline

  /** The list new steps go to. A scenario's is the last scenario's. */
  datatype Target = Nowhere | ToBackground | ToScenario | ToOutline

  /** Where the last step lives: it is the last of its list. A step of an outline already
      expanded is Lost: changing it changes nothing that is returned. */
  datatype Last = NoStep | Lost | InBackground | InScenario(k: nat) | InOutline

  datatype State = State(
    feature: Feature,
    pendingTags: seq<string>,
    descriptionLines: seq<string>,
    section: Section,
    target: Target,
    inExamples: bool,
    examplesHeaders: Option<seq<string>>,
    examplesRows: Table,
    examplesTags: seq<string>,
    outline: Option<Scenario>,
    lastStep: Last,
    docstring: Option<seq<string>>,
    fence: Option<string>,
    tableRows: Option<Table>,
    lineNo: nat)

  const EMPTY_FEATURE := Feature("", "", [], [], [])

  const START := State(EMPTY_FEATURE, [], [], Outside, Nowhere, false, None, [], [], None, NoStep, None, None, None, 0)

  predicate Valid(s: State) {
    && (s.target.ToScenario? ==> s.feature.scenarios != [])
    && (s.target.ToOutline? ==> s.outline.Some?)
    && (s.lastStep.NoStep? ==> s.tableRows.None?)
    && match s.lastStep
       case NoStep => true
       case Lost => true
       case InBackground => s.feature.background != []
       case InScenario(k) => k < |s.feature.scenarios| && s.feature.scenarios[k].steps != []
       case InOutline => s.outline.Some? && s.outline.value.steps != []
  }

  // ---------------------------------------------------------------- Examples substitution

  /** text.split(pattern).join(value): every occurrence, left to right. */
  function ReplaceAll(text: string, pattern: string, value: string): string
    requires pattern != ""
  {
    if text == "" then ""
    else if StartsWith(text, pattern) then value + ReplaceAll(text[|pattern|..], pattern, value)
    else [text[0]] + ReplaceAll(text[1..], pattern, value)
  }

  function Placeholder(header: string): string { "<" + header + ">" }

  /** The value of column i; a short row has empty cells. */
  function Cell(row: seq<string>, i: nat): string {
    if i < |row| then row[i] else ""
  }

  /** The first n headers substituted, one after another. */
  function SubstitutedBy(text: string, headers: seq<string>, row: seq<string>, n: nat): string
    requires n <= |headers|
  {
    if n == 0 then text
    else ReplaceAll(SubstitutedBy(text, headers, row, n - 1), Placeholder(headers[n - 1]), Cell(row, n - 1))
  }

  function Substituted(text: string, headers: seq<string>, row: seq<string>): string {
    SubstitutedBy(text, headers, row, |headers|)
  }

  method SubstituteExamples(text: string, headers: seq<string>, row: seq<string>) returns (out: string)
    ensures out == Substituted(text, headers, row)
  {
    out := text;
    for i := 0 to |headers|
      invariant out == SubstitutedBy(text, headers, row, i)
    {
      out := ReplaceAll(out, Placeholder(headers[i]), Cell(row, i));
    }
  }

  function SubstitutedRow(cells: seq<string>, headers: seq<string>, row: seq<string>): (r: seq<string>)
    ensures |r| == |cells|
  {
    seq(|cells|, i requires 0 <= i < |cells| => Substituted(cells[i], headers, row))
  }

  function SubstitutedTable(table: Table, headers: seq<string>, row: seq<string>): (r: Table)
    ensures |r| == |table|
  {
    seq(|table|, i requires 0 <= i < |table| => SubstitutedRow(table[i], headers, row))
  }

  /** One step of an expanded scenario. An empty doc string is dropped. */
  function SubstitutedStep(step: Step, headers: seq<string>, row: seq<string>): Step {
    Step(
      step.keyword,
      Substituted(step.text, headers, row),
      if step.docstring.Some? && step.docstring.value != ""
      then Some(Substituted(step.docstring.value, headers, row)) else None,
      if step.table.Some? then Some(SubstitutedTable(step.table.value, headers, row)) else None)
  }

  function SubstitutedSteps(steps: seq<Step>, headers: seq<string>, row: seq<string>): (r: seq<Step>)
    ensures |r| == |steps|
  {
    seq(|steps|, i requires 0 <= i < |steps| => SubstitutedStep(steps[i], headers, row))
  }

  /** The step filled from a row: its keyword as it is, its text, a doc string that is not empty and every table cell
      with the headers substituted; an empty doc string is dropped. */
  predicate FilledFrom(step: Step, headers: seq<string>, row: seq<string>, filled: Step) {
    && filled.keyword == step.keyword && filled.text == Substituted(step.text, headers, row)
    && (filled.docstring.Some? <==> step.docstring.Some? && step.docstring.value != "")
    && (filled.docstring.Some? ==> filled.docstring.value == Substituted(step.docstring.value, headers, row))
    && (filled.table.Some? <==> step.table.Some?)
    && (filled.table.Some? ==> CellsFilled(step.table.value, headers, row, filled.table.value))
  }

  predicate CellsFilled(table: Table, headers: seq<string>, row: seq<string>, filled: Table) {
    && |filled| == |table|
    && forall i :: 0 <= i < |table| ==>
         |filled[i]| == |table[i]| && forall k :: 0 <= k < |table[i]| ==> filled[i][k] == Substituted(table[i][k], headers, row)
  }

  /** The scenario of one Examples row: the outline's name substituted, its tags and then the block's own, its line, the
      row itself, and each of its steps filled. */
  predicate FromRow(template: Scenario, headers: seq<string>, blockTags: seq<string>, row: seq<string>, scenario: Scenario) {
    && scenario.name == Substituted(template.name, headers, row)
    && scenario.tags == template.tags + blockTags
    && scenario.lineNumber == template.lineNumber && scenario.exampleRow == Some(row)
    && |scenario.steps| == |template.steps|
    && forall i :: 0 <= i < |template.steps| ==> FilledFrom(template.steps[i], headers, row, scenario.steps[i])
  }

  /** One scenario per row, in order. */
  predicate FromRows(template: Scenario, headers: seq<string>, blockTags: seq<string>, rows: Table, scenarios: seq<Scenario>) {
    && |scenarios| == |rows|
    && forall i :: 0 <= i < |rows| ==> FromRow(template, headers, blockTags, rows[i], scenarios[i])
  }

  function ExpandRow(template: Scenario, headers: seq<string>, blockTags: seq<string>, row: seq<string>): Scenario {
    Scenario(
      Substituted(template.name, headers, row),
      template.tags + blockTags,
      SubstitutedSteps(template.steps, headers, row),
      template.lineNumber,
      Some(row))
  }

  function ExpandRows(template: Scenario, headers: seq<string>, blockTags: seq<string>, rows: Table): (r: seq<Scenario>)
    ensures |r| == |rows|
  {
    seq(|rows|, i requires 0 <= i < |rows| => ExpandRow(template, headers, blockTags, rows[i]))
  }

  lemma StepIsFilled(step: Step, headers: seq<string>, row: seq<string>)
    ensures FilledFrom(step, headers, row, SubstitutedStep(step, headers, row))
  {
  }

  lemma RowExpands(template: Scenario, headers: seq<string>, blockTags: seq<string>, row: seq<string>)
    ensures FromRow(template, headers, blockTags, row, ExpandRow(template, headers, blockTags, row))
  {
    forall i | 0 <= i < |template.steps|
      ensures FilledFrom(template.steps[i], headers, row, SubstitutedSteps(template.steps, headers, row)[i])
    {
      StepIsFilled(template.steps[i], headers, row);
    }
  }

  /** What the rows of a block expand to. */
  lemma RowsExpand(template: Scenario, headers: seq<string>, blockTags: seq<string>, rows: Table)
    ensures FromRows(template, headers, blockTags, rows, ExpandRows(template, headers, blockTags, rows))
  {
    forall i | 0 <= i < |rows|
      ensures FromRow(template, headers, blockTags, rows[i], ExpandRows(template, headers, blockTags, rows)[i])
    {
      RowExpands(template, headers, blockTags, rows[i]);
    }
  }

  // ---------------------------------------------------------------- the parser's moves

  function Attach(step: Step, docstring: Option<seq<string>>, table: Option<Table>): Step {
    step.(docstring := if docstring.Some? then Some(Join(docstring.value, "\n")) else step.docstring,
          table := if table.Some? then table else step.table)
  }

  function AttachLast(steps: seq<Step>, docstring: Option<seq<string>>, table: Option<Table>): (r: seq<Step>)
    requires steps != []
    ensures |r| == |steps|
  {
    steps[..|steps| - 1] + [Attach(steps[|steps| - 1], docstring, table)]
  }

  /** The last step changed where it lives. */
  function OnLast(s: State, docstring: Option<seq<string>>, table: Option<Table>): (r: State)
    requires Valid(s)
    ensures Valid(r) && r.lastStep == s.lastStep
  {
    match s.lastStep
    case NoStep => s
    case Lost => s
    case InBackground =>
      s.(feature := s.feature.(background := AttachLast(s.feature.background, docstring, table)))
    case InScenario(k) =>
      var scenario := s.feature.scenarios[k];
      var changed := scenario.(steps := AttachLast(scenario.steps, docstring, table));
      s.(feature := s.feature.(scenarios := s.feature.scenarios[k := changed]))
    case InOutline =>
      var template := s.outline.value;
      s.(outline := Some(template.(steps := AttachLast(template.steps, docstring, table))))
  }

  /** Attach what was collected to the last step. Without a step, nothing is attached or cleared. */
  function CloseStep(s: State): (r: State)
    requires Valid(s)
    ensures Valid(r) && r.lastStep == s.lastStep
  {
    if s.lastStep.NoStep? then s
    else OnLast(s, s.docstring, s.tableRows).(docstring := None, tableRows := None)
  }

  function Expansion(s: State): seq<Scenario> {
    if s.outline.Some? && s.examplesHeaders.Some?
    then ExpandRows(s.outline.value, s.examplesHeaders.value, s.examplesTags, s.examplesRows)
    else []
  }

  /** Expand the Examples block collected so far and clear it. */
  function ExpandBlock(s: State): (r: State)
    requires Valid(s)
    ensures Valid(r)
  {
    s.(feature := s.feature.(scenarios := s.feature.scenarios + Expansion(s)),
       examplesHeaders := None, examplesRows := [], examplesTags := [])
  }

  /** The outline is done: its steps can no longer be reached. */
  function FlushOutline(s: State): (r: State)
    requires Valid(s)
    ensures Valid(r)
  {
    ExpandBlock(s).(outline := None,
                    lastStep := if s.lastStep.InOutline? then Lost else s.lastStep,
                    target := if s.target.ToOutline? then Nowhere else s.target)
  }

  /** While the feature header is the current section, its description is what was collected. */
  function Described(s: State): (r: State)
    requires Valid(s)
    ensures Valid(r)
  {
    if s.section.OfFeature?
    then s.(feature := s.feature.(description := Trim(Join(s.descriptionLines, "\n")))) else s
  }

  function PushStep(s: State, step: Step): (r: State)
    requires Valid(s) && !s.target.Nowhere?
    ensures Valid(r)
  {
    match s.target
    case ToBackground =>
      s.(feature := s.feature.(background := s.feature.background + [step]), lastStep := InBackground)
    case ToScenario =>
      var k := |s.feature.scenarios| - 1;
      var scenario := s.feature.scenarios[k];
      s.(feature := s.feature.(scenarios := s.feature.scenarios[k := scenario.(steps := scenario.steps + [step])]),
         lastStep := InScenario(k))
    case ToOutline =>
      var template := s.outline.value;
      s.(outline := Some(template.(steps := template.steps + [step])), lastStep := InOutline)
  }

  /** What a scenario or outline header does first, and what the end of the source does. */
  function Settled(s: State): (r: State)
    requires Valid(s)
    ensures Valid(r)
  {
    Described(FlushOutline(CloseStep(s)))
  }

  // ---------------------------------------------------------------- one line

  function TagsStep(s: State, tags: seq<string>): (r: State)
    requires Valid(s)
    ensures Valid(r)
  {
    var c := CloseStep(s);
    c.(pendingTags := c.pendingTags + tags)
  }

  function NewStep(s: State, keyword: string, text: string): (r: State)
    requires Valid(s) && !s.target.Nowhere?
    ensures Valid(r)
  {
    PushStep(CloseStep(s), Step(keyword, text, None, None))
  }

  function FeatureStep(s: State, name: string): (r: State)
    requires Valid(s)
    ensures Valid(r)
  {
    var c := CloseStep(s);
    c.(feature := c.feature.(name := name, tags := c.pendingTags), pendingTags := [], section := OfFeature)
  }

  function BackgroundStep(s: State): (r: State)
    requires Valid(s)
    ensures Valid(r)
  {
    Described(CloseStep(s)).(section := OfBackground, target := ToBackground)
  }

  function OutlineStep(s: State, name: string): (r: State)
    requires Valid(s)
    ensures Valid(r)
  {
    var c := Settled(s);
    c.(outline := Some(Scenario(name, c.pendingTags, [], c.lineNo, None)),
       pendingTags := [], section := OfOutline, target := ToOutline, inExamples := false)
  }

  function ScenarioStep(s: State, name: string): (r: State)
    requires Valid(s)
    ensures Valid(r)
  {
    var c := Settled(s);
    var scenario := Scenario(name, c.pendingTags, [], c.lineNo, None);
    c.(feature := c.feature.(scenarios := c.feature.scenarios + [scenario]),
       pendingTags := [], section := OfScenario, target := ToScenario, inExamples := false)
  }

  function ExamplesStep(s: State): (r: State)
    requires Valid(s)
    ensures Valid(r)
  {
    var c := ExpandBlock(CloseStep(s));
    c.(inExamples := true, examplesTags := c.pendingTags, pendingTags := [], target := Nowhere)
  }

  function RowStep(s: State, cells: seq<string>): (r: State)
    requires Valid(s)
    ensures Valid(r)
  {
    if s.inExamples then
      if s.examplesHeaders.None? then s.(examplesHeaders := Some(cells))
      else s.(examplesRows := s.examplesRows + [cells])
    else if !s.lastStep.NoStep? then
      s.(tableRows := Some((if s.tableRows.Some? then s.tableRows.value else []) + [cells]))
    else s
  }

  function ProseStep(s: State, text: string): (r: State)
    requires Valid(s)
    ensures Valid(r)
  {
    if s.section.OfFeature? then s.(descriptionLines := s.descriptionLines + [text]) else s
  }

  /** A line inside a doc string: only the fence that opened it closes it. */
  function DocLine(s: State, raw: string): (r: State)
    requires Valid(s) && s.docstring.Some?
    ensures Valid(r)
  {
    if s.fence == Some(Trim(raw)) then CloseStep(s).(fence := None)
    else s.(docstring := Some(s.docstring.value + [raw]))
  }

  /** A line outside a doc string, classified, with its trimmed text. */
  function PlainLine(s: State, line: Line, trimmed: string): (r: State)
    requires Valid(s)
    ensures Valid(r)
  {
    match line
    case Empty => s
    case Comment => s
    case Tags(tags) => TagsStep(s, tags)
    case FeatureHead(name) => FeatureStep(s, name)
    case BackgroundHead => BackgroundStep(s)
    case OutlineHead(name) => OutlineStep(s, name)
    case ScenarioHead(name) => ScenarioStep(s, name)
    case ExamplesHead => ExamplesStep(s)
    case Row(cells) => RowStep(s, cells)
    case FenceMark(fence) => s.(docstring := Some([]), fence := Some(fence))
    case StepLine(keyword, text) =>
      if s.target.Nowhere? then ProseStep(s, trimmed) else NewStep(s, keyword, text)
    case Prose => ProseStep(s, trimmed)
  }

  /** A counted line, given what it is outside a doc string and its trimmed text. */
  function ReadAs(s: State, raw: string, line: Line, trimmed: string): (r: State)
    requires Valid(s)
    ensures Valid(r)
  {
    if s.docstring.Some? then DocLine(s, raw) else PlainLine(s, line, trimmed)
  }

  function Counted(s: State): (r: State)
    requires Valid(s)
    ensures Valid(r)
  {
    s.(lineNo := s.lineNo + 1)
  }

  function LineStep(s: State, raw: string): (r: State)
    requires Valid(s)
    ensures Valid(r)
  {
    ReadAs(Counted(s), raw, Classify(raw), Trim(raw))
  }

  function RunLines(s: State, lines: seq<string>): (r: State)
    requires Valid(s)
    ensures Valid(r)
    decreases |lines|
  {
    if lines == [] then s else RunLines(LineStep(s, lines[0]), lines[1..])
  }

  /** What is returned if the source ends here. */
  function Finish(s: State): Feature
    requires Valid(s)
  {
    Settled(s).feature
  }

  function Parsed(source: string): Feature {
    Finish(RunLines(START, SplitLines(source, "")))
  }
}
