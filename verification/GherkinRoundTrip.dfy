// Parsing the printed form of a feature gives back what it stands for.
module GherkinRoundTrip {
  import opened Text
  import opened GherkinRow
  import opened GherkinLines
  import opened GherkinParser
  import opened GherkinSource

  // ---------------------------------------------------------------- running lines

  lemma {:induction false} RunAppend(s: State, a: seq<string>, b: seq<string>)
    requires Valid(s)
    ensures RunLines(s, a + b) == RunLines(RunLines(s, a), b)
    decreases |a|
  {
    if a == [] {
      assert a + b == b;
    } else {
      assert (a + b)[1..] == a[1..] + b;
      RunAppend(LineStep(s, a[0]), a[1..], b);
    }
  }

  lemma RunOne(s: State, line: string)
    requires Valid(s)
    ensures RunLines(s, [line]) == LineStep(s, line)
  {
    assert [line][1..] == [];
  }

  lemma RunFirst(s: State, line: string, rest: seq<string>)
    requires Valid(s)
    ensures RunLines(s, [line] + rest) == RunLines(LineStep(s, line), rest)
  {
    assert ([line] + rest)[1..] == rest;
  }

  function On(s: State, n: nat): State { s.(lineNo := s.lineNo + n) }

  /** A state between lines, outside any doc string. */
  predicate Ready(s: State) {
    Valid(s) && s.docstring.None? && s.fence.None?
  }

  lemma Reads(s: State, indent: string, line: string)
    requires Valid(s) && s.docstring.None? && Blank(indent) && Trimmed(line)
    ensures LineStep(s, indent + line) == PlainLine(On(s, 1), Classify(line), line)
  {
    IndentationIgnored(indent, line, "");
    TrimPadded(indent, line, "");
    assert indent + line + "" == indent + line;
  }

  // ---------------------------------------------------------------- closing steps

  lemma AttachNothing(steps: seq<Step>)
    requires steps != []
    ensures AttachLast(steps, None, None) == steps
  {
  }

  lemma OnLastNothing(s: State)
    requires Valid(s)
    ensures OnLast(s, None, None) == s
  {
    match s.lastStep
    case NoStep =>
    case Lost =>
    case InBackground => AttachNothing(s.feature.background);
    case InScenario(k) => AttachNothing(s.feature.scenarios[k].steps);
    case InOutline => AttachNothing(s.outline.value.steps);
  }

  /** A state with nothing left to attach. */
  predicate Closed(s: State) {
    Ready(s) && s.tableRows.None?
  }

  lemma CloseClosed(s: State)
    requires Closed(s)
    ensures CloseStep(s) == s
  {
    OnLastNothing(s);
  }

  lemma CloseIsClosed(s: State)
    requires Ready(s)
    ensures Closed(CloseStep(s)) && CloseStep(CloseStep(s)) == CloseStep(s)
  {
    CloseClosed(CloseStep(s));
  }

  lemma CloseOn(s: State, n: nat)
    requires Valid(s)
    ensures CloseStep(On(s, n)) == On(CloseStep(s), n)
  {
  }

  lemma OnLastOn(s: State, n: nat, docstring: Option<seq<string>>, table: Option<Table>)
    requires Valid(s)
    ensures OnLast(On(s, n), docstring, table) == On(OnLast(s, docstring, table), n)
  {
  }

  // ---------------------------------------------------------------- attachments

  /** Inside a doc string, with the lines collected so far. */
  function InDoc(s: State, fence: string, lines: seq<string>): State {
    s.(docstring := Some(lines), fence := Some(fence))
  }

  lemma RunHead(s: State, lines: seq<string>)
    requires Valid(s) && lines != []
    ensures RunLines(s, lines) == RunLines(LineStep(s, lines[0]), lines[1..])
  {
  }

  lemma DocLineAdds(s: State, fence: string, done: seq<string>, line: string)
    requires Valid(s) && Trim(line) != fence
    ensures LineStep(InDoc(s, fence, done), line) == InDoc(On(s, 1), fence, done + [line])
  {
  }

  lemma {:induction false} DocLines(s: State, fence: string, done: seq<string>, lines: seq<string>, t: State)
    requires Valid(s) && forall i :: 0 <= i < |lines| ==> Trim(lines[i]) != fence
    requires t == On(s, |lines|)
    ensures RunLines(InDoc(s, fence, done), lines) == InDoc(t, fence, done + lines)
    decreases |lines|
  {
    if lines == [] {
      assert done + lines == done;
    } else {
      DocLineAdds(s, fence, done, lines[0]);
      RunHead(InDoc(s, fence, done), lines);
      DocLines(On(s, 1), fence, done + [lines[0]], lines[1..], t);
      MoveOver(done, lines[0], lines[1..]);
      assert [lines[0]] + lines[1..] == lines;
    }
  }

  lemma DocOpens(s: State, doc: DocString, l: Layout)
    requires Valid(s) && s.docstring.None? && GoodDoc(doc) && GoodLayout(l)
    ensures LineStep(s, l.indent + (doc.fence + doc.media)) == InDoc(On(s, 1), doc.fence, [])
  {
    FenceTrimmed(doc.fence, doc.media);
    Reads(s, l.indent, doc.fence + doc.media);
    FenceLine(doc.fence, doc.media);
  }

  lemma FenceTrimmed(fence: string, media: string)
    requires IsFence(fence) && NoSpace(media)
    ensures Trimmed(fence + media)
  {
    assert forall i :: 0 <= i < |fence| ==> !IsSpace(fence[i]);
    var line := fence + media;
    assert line[|line| - 1] == if media == "" then fence[2] else media[|media| - 1];
  }

  lemma DocCloses(s: State, doc: DocString, l: Layout, lines: seq<string>)
    requires Closed(s) && !s.lastStep.NoStep? && GoodDoc(doc) && GoodLayout(l)
    ensures LineStep(InDoc(s, doc.fence, lines), l.indent + doc.fence)
            == On(OnLast(s, Some(lines), None), 1)
  {
    FenceTrimmed(doc.fence, "");
    assert doc.fence + "" == doc.fence;
    TrimPadded(l.indent, doc.fence, "");
    assert l.indent + doc.fence + "" == l.indent + doc.fence;
  }

  lemma RunThree(s: State, first: string, middle: seq<string>, last: string)
    requires Valid(s)
    ensures RunLines(s, [first] + (middle + [last])) == LineStep(RunLines(LineStep(s, first), middle), last)
  {
    RunFirst(s, first, middle + [last]);
    RunAppend(LineStep(s, first), middle, [last]);
    RunOne(RunLines(LineStep(s, first), middle), last);
  }

  lemma DocRun(s: State, doc: DocString, l: Layout)
    requires Closed(s) && !s.lastStep.NoStep? && GoodDoc(doc) && GoodLayout(l)
    ensures RunLines(s, PrintDoc(doc, l)) == On(OnLast(s, Some(doc.lines), None), |PrintDoc(doc, l)|)
  {
    RunThree(s, l.indent + (doc.fence + doc.media), doc.lines, l.indent + doc.fence);
    DocOpens(s, doc, l);
    DocLines(On(s, 1), doc.fence, [], doc.lines, On(s, 1 + |doc.lines|));
    assert [] + doc.lines == doc.lines;
    DocCloses(On(s, 1 + |doc.lines|), doc, l, doc.lines);
    OnLastOn(s, 1 + |doc.lines|, Some(doc.lines), None);
  }

  function Rows(s: State): Table { if s.tableRows.Some? then s.tableRows.value else [] }

  lemma ReadsRow(s: State, cells: seq<string>, l: Layout)
    requires Ready(s) && AllTrimmed(cells) && GoodLayout(l)
    ensures LineStep(s, l.indent + WriteRow(cells, l.pad)) == RowStep(On(s, 1), cells)
  {
    RowTrimmed(cells, l.pad);
    RowLine(cells, l.pad);
    Reads(s, l.indent, WriteRow(cells, l.pad));
  }

  /** Rows waiting to become the last step's table. */
  function Pend(s: State, rows: Table): State { s.(tableRows := Some(Rows(s) + rows)) }

  lemma PendRow(s: State, cells: seq<string>)
    requires Ready(s) && !s.lastStep.NoStep? && !s.inExamples
    ensures RowStep(On(s, 1), cells) == On(Pend(s, [cells]), 1)
  {
  }

  lemma PendMore(s: State, a: Table, b: Table, m: nat, n: nat)
    ensures On(Pend(On(Pend(s, a), m), b), n) == On(Pend(s, a + b), m + n)
  {
    assert Rows(s) + a + b == Rows(s) + (a + b);
  }

  lemma TableFirst(table: Table, l: Layout)
    requires table != []
    ensures PrintTable(table, l) == [l.indent + WriteRow(table[0], l.pad)] + PrintTable(table[1..], l)
    ensures [table[0]] + table[1..] == table
  {
  }

  lemma RunNone(s: State)
    requires Valid(s)
    ensures RunLines(s, []) == s
  {
  }

  lemma {:induction false} TableRun(s: State, table: Table, l: Layout)
    requires Ready(s) && !s.lastStep.NoStep? && !s.inExamples && GoodTable(table) && GoodLayout(l)
    ensures RunLines(s, PrintTable(table, l)) == if table == [] then s else On(Pend(s, table), |table|)
    decreases |table|
  {
    if table == [] {
      RunNone(s);
    } else {
      var line, t := l.indent + WriteRow(table[0], l.pad), On(Pend(s, [table[0]]), 1);
      TableFirst(table, l);
      ReadsRow(s, table[0], l);
      PendRow(s, table[0]);
      RunFirst(s, line, PrintTable(table[1..], l));
      TableRun(t, table[1..], l);
      if |table| == 1 { assert table == [table[0]]; }
      else { PendMore(s, [table[0]], table[1..], 1, |table| - 1); }
    }
  }

  // ---------------------------------------------------------------- steps

  /** Steps added to the list new steps go to. */
  function AddSteps(s: State, steps: seq<Step>): (r: State)
    requires Valid(s) && !s.target.Nowhere?
    ensures Valid(r) && r.target == s.target
    decreases |steps|
  {
    if steps == [] then s else AddSteps(PushStep(s, steps[0]), steps[1..])
  }

  lemma AttachNew(steps: seq<Step>, step: Step, docstring: Option<seq<string>>, table: Option<Table>)
    ensures AttachLast(steps + [step], docstring, table) == steps + [Attach(step, docstring, table)]
  {
  }

  /** Attaching to the step just pushed is pushing it with its attachment. */
  lemma PushAttach(s: State, step: Step, docstring: Option<seq<string>>, table: Option<Table>)
    requires Valid(s) && !s.target.Nowhere?
    ensures OnLast(PushStep(s, step), docstring, table) == PushStep(s, Attach(step, docstring, table))
  {
    var t := PushStep(s, step);
    match s.target
    case ToBackground => AttachInBackground(s, step, docstring, table, t);
    case ToScenario => AttachInScenario(s, step, docstring, table, |s.feature.scenarios| - 1, t);
    case ToOutline => AttachInOutline(s, step, docstring, table, t);
  }

  lemma AttachInBackground(s: State, step: Step, docstring: Option<seq<string>>, table: Option<Table>, t: State)
    requires Valid(s) && s.target.ToBackground? && t == PushStep(s, step)
    ensures OnLast(t, docstring, table) == PushStep(s, Attach(step, docstring, table))
  {
    AttachNew(s.feature.background, step, docstring, table);
  }

  lemma AttachInScenario(s: State, step: Step, docstring: Option<seq<string>>, table: Option<Table>, k: nat, t: State)
    requires Valid(s) && s.target.ToScenario? && t == PushStep(s, step) && k == |s.feature.scenarios| - 1
    ensures OnLast(t, docstring, table) == PushStep(s, Attach(step, docstring, table))
  {
    AttachNew(s.feature.scenarios[k].steps, step, docstring, table);
  }

  lemma AttachInOutline(s: State, step: Step, docstring: Option<seq<string>>, table: Option<Table>, t: State)
    requires Valid(s) && s.target.ToOutline? && t == PushStep(s, step)
    ensures OnLast(t, docstring, table) == PushStep(s, Attach(step, docstring, table))
  {
    AttachNew(s.outline.value.steps, step, docstring, table);
  }

  lemma PushOn(s: State, step: Step, n: nat)
    requires Valid(s) && !s.target.Nowhere?
    ensures PushStep(On(s, n), step) == On(PushStep(s, step), n)
  {
  }

  lemma {:induction false} AddOn(s: State, steps: seq<Step>, n: nat)
    requires Valid(s) && !s.target.Nowhere?
    ensures AddSteps(On(s, n), steps) == On(AddSteps(s, steps), n)
    decreases |steps|
  {
    if steps != [] {
      PushOn(s, steps[0], n);
      AddOn(PushStep(s, steps[0]), steps[1..], n);
    }
  }

  /** The table closes with the step: pending rows are attached as its table. */
  lemma ClosePending(s: State, rows: Table)
    requires Closed(s) && !s.lastStep.NoStep?
    ensures CloseStep(s.(tableRows := Some(rows))) == OnLast(s, None, Some(rows))
  {
  }

  predicate Listing(s: State) { Ready(s) && !s.target.Nowhere? && !s.inExamples }

  lemma PushKeeps(s: State, step: Step)
    requires Closed(s) && Listing(s)
    ensures Closed(PushStep(s, step)) && Listing(PushStep(s, step)) && !PushStep(s, step).lastStep.NoStep?
  {
  }

  lemma CloseKeeps(s: State)
    requires Listing(s)
    ensures Closed(CloseStep(s)) && Listing(CloseStep(s))
  {
  }

  lemma StepLineRun(s: State, step: SourceStep, l: Layout)
    requires Listing(s) && GoodStep(step) && GoodLayout(l)
    ensures LineStep(s, l.indent + Head(step.keyword, step.text)) == PushStep(On(CloseStep(s), 1), Bare(step))
  {
    KeywordOpens(step.keyword);
    HeadIsTrimmed(step.keyword, step.text);
    Reads(s, l.indent, Head(step.keyword, step.text));
    StepHead(step.keyword, step.text);
    CloseOn(s, 1);
  }

  lemma HeadIsTrimmed(word: string, text: string)
    requires word != "" && Trimmed(word) && Trimmed(text)
    ensures Trimmed(Head(word, text))
  {
  }

  /** A step without its attachments, and with its doc string but not its table. */
  function Bare(step: SourceStep): Step { Step(step.keyword, step.text, None, None) }

  function WithDoc(step: SourceStep): Step {
    Attach(Bare(step), if step.doc.Some? then Some(step.doc.value.lines) else None, None)
  }

  function DocPart(step: SourceStep, l: Layout): seq<string> {
    if step.doc.Some? then PrintDoc(step.doc.value, l) else []
  }

  function TablePart(step: SourceStep, l: Layout): seq<string> {
    if step.table.Some? then PrintTable(step.table.value, l) else []
  }

  lemma DocPartRun(s: State, step: SourceStep, l: Layout, t: State)
    requires Closed(s) && Listing(s) && GoodStep(step) && GoodLayout(l)
    requires t == On(s, |DocPart(step, l)|)
    ensures RunLines(PushStep(s, Bare(step)), DocPart(step, l)) == PushStep(t, WithDoc(step))
  {
    PushKeeps(s, Bare(step));
    PushOn(s, WithDoc(step), |DocPart(step, l)|);
    if step.doc.Some? {
      DocRun(PushStep(s, Bare(step)), step.doc.value, l);
      PushAttach(s, Bare(step), Some(step.doc.value.lines), None);
    } else {
      RunNone(PushStep(s, Bare(step)));
    }
  }

  /** A step whose table is still pending, and the step the close makes of it. */
  lemma TableCloses(s: State, step: SourceStep, table: Table, t: State, r: State)
    requires Closed(s) && Listing(s) && step.table == Some(table)
    requires t == On(s, |table|) && r == On(Pend(PushStep(s, WithDoc(step)), table), |table|)
    ensures Listing(r) && CloseStep(r) == PushStep(t, Meaning(step))
  {
    PushOn(s, WithDoc(step), |table|);
    PushKeeps(t, WithDoc(step));
    assert [] + table == table;
    ClosePending(PushStep(t, WithDoc(step)), table);
    PushAttach(t, WithDoc(step), None, Some(table));
  }

  lemma TablePartRun(s: State, step: SourceStep, l: Layout, t: State, r: State)
    requires Closed(s) && Listing(s) && GoodStep(step) && GoodLayout(l)
    requires t == On(s, |TablePart(step, l)|) && r == RunLines(PushStep(s, WithDoc(step)), TablePart(step, l))
    ensures Listing(r) && CloseStep(r) == PushStep(t, Meaning(step))
  {
    var p := PushStep(s, WithDoc(step));
    PushKeeps(s, WithDoc(step));
    if step.table.Some? {
      TableRun(p, step.table.value, l);
      TableCloses(s, step, step.table.value, t, r);
    } else {
      RunNone(p);
      CloseClosed(p);
    }
  }

  lemma RunFourth(s: State, first: string, a: seq<string>, b: seq<string>)
    requires Valid(s)
    ensures RunLines(s, [first] + (a + b)) == RunLines(RunLines(LineStep(s, first), a), b)
  {
    RunFirst(s, first, a + b);
    RunAppend(LineStep(s, first), a, b);
  }

  lemma OnOn(s: State, m: nat, n: nat)
    ensures On(On(s, m), n) == On(s, m + n)
  {
  }

  lemma StepLength(step: SourceStep, l: Layout)
    ensures |PrintStep(step, l)| == 1 + |DocPart(step, l)| + |TablePart(step, l)|
    ensures PrintStep(step, l) == [l.indent + Head(step.keyword, step.text)] + (DocPart(step, l) + TablePart(step, l))
  {
  }

  lemma StepRun(s: State, step: SourceStep, l: Layout, t: State, r: State)
    requires Listing(s) && GoodStep(step) && GoodLayout(l)
    requires t == On(CloseStep(s), |PrintStep(step, l)|) && r == RunLines(s, PrintStep(step, l))
    ensures Listing(r) && CloseStep(r) == PushStep(t, Meaning(step))
  {
    CloseKeeps(s);
    StepLength(step, l);
    var c := On(CloseStep(s), 1);
    var d := On(c, |DocPart(step, l)|);
    RunFourth(s, l.indent + Head(step.keyword, step.text), DocPart(step, l), TablePart(step, l));
    StepLineRun(s, step, l);
    DocPartRun(c, step, l, d);
    TablePartRun(d, step, l, t, r);
  }

  lemma AddFirst(s: State, step: Step, rest: seq<Step>, m: nat, n: nat, t: State, u: State)
    requires Valid(s) && !s.target.Nowhere? && t == On(s, m) && u == On(s, m + n)
    ensures AddSteps(On(PushStep(t, step), n), rest) == AddSteps(u, [step] + rest)
  {
    PushOn(s, step, m);
    PushOn(s, step, m + n);
    OnOn(PushStep(s, step), m, n);
    assert ([step] + rest)[1..] == rest;
  }

  lemma StepsFirst(steps: seq<SourceStep>, l: Layout)
    requires steps != []
    ensures PrintSteps(steps, l) == PrintStep(steps[0], l) + PrintSteps(steps[1..], l)
    ensures |PrintSteps(steps, l)| == |PrintStep(steps[0], l)| + |PrintSteps(steps[1..], l)|
    ensures StepsMeaning(steps) == [Meaning(steps[0])] + StepsMeaning(steps[1..])
  {
  }

  /** A printed list of steps is read as those steps, in order, each with its own attachments. */
  lemma {:induction false} StepsRun(s: State, steps: seq<SourceStep>, l: Layout, u: State, r: State)
    requires Listing(s) && GoodSteps(steps) && GoodLayout(l)
    requires u == On(CloseStep(s), |PrintSteps(steps, l)|) && r == RunLines(s, PrintSteps(steps, l))
    ensures Listing(r) && CloseStep(r) == AddSteps(u, StepsMeaning(steps))
    decreases |steps|
  {
    CloseKeeps(s);
    if steps == [] {
      RunNone(s);
    } else {
      var first, rest := PrintStep(steps[0], l), PrintSteps(steps[1..], l);
      var c, mid := CloseStep(s), RunLines(s, first);
      var t := On(c, |first|);
      StepsFirst(steps, l);
      RunAppend(s, first, rest);
      StepRun(s, steps[0], l, t, mid);
      StepsRun(mid, steps[1..], l, On(PushStep(t, Meaning(steps[0])), |rest|), r);
      AddFirst(c, Meaning(steps[0]), StepsMeaning(steps[1..]), |first|, |rest|, t, u);
    }
  }
}
