// Feature files as their authors write them, printed as lines, and what each stands for.
module GherkinSource {
  import opened Text
  import opened GherkinRow
  import opened GherkinLines
  import opened GherkinParser

  datatype DocString = DocString(fence: string, media: string, lines: seq<string>)

  datatype SourceStep = SourceStep(keyword: string, text: string, doc: Option<DocString>, table: Option<Table>)

  /** An Examples block: its keyword as spelled, its title and tags, and its table, headers first. */
  datatype Block = Block(word: string, title: string, tags: seq<string>, table: Table)

  datatype Item =
    | Plain(word: string, name: string, tags: seq<string>, steps: seq<SourceStep>)
    | Outline(word: string, name: string, tags: seq<string>, steps: seq<SourceStep>, blocks: seq<Block>)

  datatype Background = Background(word: string, title: string, steps: seq<SourceStep>)

  datatype Source = Source(
    word: string, name: string, tags: seq<string>, description: seq<string>,
    background: Option<Background>, items: seq<Item>)

  // ---------------------------------------------------------------- well-formed sources

  predicate GoodTable(table: Table) {
    forall i :: 0 <= i < |table| ==> AllTrimmed(table[i])
  }

  predicate GoodDoc(doc: DocString) {
    && IsFence(doc.fence) && NoSpace(doc.media)
    && forall i :: 0 <= i < |doc.lines| ==> OneLine(doc.lines[i]) && Trim(doc.lines[i]) != doc.fence
  }

  predicate GoodStep(step: SourceStep) {
    && step.keyword in STEP_KEYWORDS && Inline(step.text)
    && (step.doc.Some? ==> GoodDoc(step.doc.value))
    && (step.table.Some? ==> step.table.value != [] && GoodTable(step.table.value))
  }

  predicate GoodSteps(steps: seq<SourceStep>) {
    forall i :: 0 <= i < |steps| ==> GoodStep(steps[i])
  }

  predicate GoodBlock(block: Block) {
    && (Spells(block.word, EXAMPLES) || Spells(block.word, SCENARIOS))
    && Inline(block.title) && AllTags(block.tags) && GoodTable(block.table)
  }

  predicate GoodItem(item: Item) {
    && Inline(item.name) && AllTags(item.tags) && GoodSteps(item.steps)
    && match item
       case Plain(word, _, _, _) => Spells(word, SCENARIO) || Spells(word, EXAMPLE)
       case Outline(word, _, _, _, blocks) =>
         && (Spells(word, OUTLINE) || Spells(word, TEMPLATE))
         && forall i :: 0 <= i < |blocks| ==> GoodBlock(blocks[i])
  }

  /** A description line is read neither as a keyword line nor as a table row or a fence. */
  predicate GoodProse(line: string) {
    Inline(line) && line != "" && (Classify(line).Prose? || Classify(line).StepLine?)
  }

  predicate GoodBackground(background: Background) {
    Spells(background.word, BACKGROUND) && Inline(background.title) && GoodSteps(background.steps)
  }

  predicate GoodSource(source: Source) {
    && Spells(source.word, FEATURE) && Inline(source.name) && AllTags(source.tags)
    && (forall i :: 0 <= i < |source.description| ==> GoodProse(source.description[i]))
    && (source.background.Some? ==> GoodBackground(source.background.value))
    && forall i :: 0 <= i < |source.items| ==> GoodItem(source.items[i])
  }

  // ---------------------------------------------------------------- printing

  /** How far lines are indented and how cells are padded. Doc string lines keep their own indentation. */
  datatype Layout = Layout(indent: string, pad: string)

  predicate GoodLayout(layout: Layout) {
    Blank(layout.indent) && '\n' !in layout.indent && Blank(layout.pad) && '\n' !in layout.pad
  }

  function PrintTags(tags: seq<string>, l: Layout): seq<string> {
    if tags == [] then [] else [l.indent + Join(tags, " ")]
  }

  function PrintTable(table: Table, l: Layout): (r: seq<string>)
    ensures |r| == |table|
  {
    if table == [] then [] else [l.indent + WriteRow(table[0], l.pad)] + PrintTable(table[1..], l)
  }

  function PrintDoc(doc: DocString, l: Layout): seq<string> {
    [l.indent + (doc.fence + doc.media)] + (doc.lines + [l.indent + doc.fence])
  }

  function PrintStep(step: SourceStep, l: Layout): seq<string> {
    [l.indent + Head(step.keyword, step.text)]
    + ((if step.doc.Some? then PrintDoc(step.doc.value, l) else [])
       + (if step.table.Some? then PrintTable(step.table.value, l) else []))
  }

  function PrintSteps(steps: seq<SourceStep>, l: Layout): seq<string> {
    if steps == [] then [] else PrintStep(steps[0], l) + PrintSteps(steps[1..], l)
  }

  function PrintBlock(block: Block, l: Layout): seq<string> {
    PrintTags(block.tags, l) + ([l.indent + Head(block.word, block.title)] + PrintTable(block.table, l))
  }

  function PrintBlocks(blocks: seq<Block>, l: Layout): seq<string> {
    if blocks == [] then [] else PrintBlock(blocks[0], l) + PrintBlocks(blocks[1..], l)
  }

  function PrintItem(item: Item, l: Layout): seq<string> {
    PrintTags(item.tags, l)
    + ([l.indent + Head(item.word, item.name)]
       + (PrintSteps(item.steps, l) + (if item.Outline? then PrintBlocks(item.blocks, l) else [])))
  }

  function PrintItems(items: seq<Item>, l: Layout): seq<string> {
    if items == [] then [] else PrintItem(items[0], l) + PrintItems(items[1..], l)
  }

  function PrintProse(lines: seq<string>, l: Layout): (r: seq<string>)
    ensures |r| == |lines|
  {
    if lines == [] then [] else [l.indent + lines[0]] + PrintProse(lines[1..], l)
  }

  function PrintBackground(background: Option<Background>, l: Layout): seq<string> {
    if background.None? then []
    else [l.indent + Head(background.value.word, background.value.title)] + PrintSteps(background.value.steps, l)
  }

  function Print(source: Source, l: Layout): (r: seq<string>)
    ensures r != []
  {
    PrintTags(source.tags, l)
    + ([l.indent + Head(source.word, source.name)]
       + (PrintProse(source.description, l) + (PrintBackground(source.background, l) + PrintItems(source.items, l))))
  }

  // ---------------------------------------------------------------- what a source stands for

  function Meaning(step: SourceStep): Step {
    Step(step.keyword, step.text,
         if step.doc.Some? then Some(Join(step.doc.value.lines, "\n")) else None,
         step.table)
  }

  function StepsMeaning(steps: seq<SourceStep>): (r: seq<Step>)
    ensures |r| == |steps|
  {
    if steps == [] then [] else [Meaning(steps[0])] + StepsMeaning(steps[1..])
  }

  function BlockMeaning(template: Scenario, block: Block): seq<Scenario> {
    if block.table == [] then [] else ExpandRows(template, block.table[0], block.tags, block.table[1..])
  }

  /** One scenario per Examples row below the header, in order, filled from that row field by field. */
  lemma BlockMeans(template: Scenario, block: Block)
    ensures if block.table == [] then BlockMeaning(template, block) == []
            else FromRows(template, block.table[0], block.tags, block.table[1..], BlockMeaning(template, block))
  {
    if block.table != [] { RowsExpand(template, block.table[0], block.tags, block.table[1..]); }
  }

  function BlocksMeaning(template: Scenario, blocks: seq<Block>): seq<Scenario> {
    if blocks == [] then [] else BlockMeaning(template, blocks[0]) + BlocksMeaning(template, blocks[1..])
  }

  /** The scenarios of an item printed after n lines. */
  function ItemMeaning(item: Item, n: nat): seq<Scenario> {
    var line := n + (if item.tags == [] then 0 else 1) + 1;
    var scenario := Scenario(item.name, item.tags, StepsMeaning(item.steps), line, None);
    match item
    case Plain(_, _, _, _) => [scenario]
    case Outline(_, _, _, _, blocks) => BlocksMeaning(scenario, blocks)
  }

  function ItemsMeaning(items: seq<Item>, l: Layout, n: nat): seq<Scenario> {
    if items == [] then []
    else ItemMeaning(items[0], n) + ItemsMeaning(items[1..], l, n + |PrintItem(items[0], l)|)
  }

  /** What the file up to its description stands for. */
  function HeaderMeaning(source: Source): Feature {
    Feature(source.name, Join(source.description, "\n"), source.tags, [], [])
  }

  function BackgroundMeaning(source: Source): seq<Step> {
    if source.background.Some? then StepsMeaning(source.background.value.steps) else []
  }

  /** The lines before the first item. */
  function FirstItemLine(source: Source, l: Layout): nat {
    |PrintTags(source.tags, l)| + 1 + |source.description| + |PrintBackground(source.background, l)|
  }

  function SourceMeaning(source: Source, l: Layout): Feature {
    HeaderMeaning(source).(background := BackgroundMeaning(source),
                           scenarios := ItemsMeaning(source.items, l, FirstItemLine(source, l)))
  }
}
