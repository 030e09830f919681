// Attachments that follow no step of their own scenario: where the parser departs from Gherkin.
module GherkinStray {
  import opened Text
  import opened GherkinLines
  import opened GherkinParser
  import opened GherkinRow
  import opened GherkinSource
  import opened GherkinRoundTrip

  /** A doc string closes at its fence exactly when some step has been read before it. */
  lemma DocStringCloses(s: State, raw: string)
    requires Valid(s) && s.docstring.Some? && s.fence == Some(Trim(raw))
    ensures LineStep(s, raw).docstring.None? <==> !s.lastStep.NoStep?
  {
  }

  /** A doc string before the first step of the file never closes: the rest of the file adds nothing. */
  lemma {:induction false} UnattachedDocStringSwallowsRest(s: State, lines: seq<string>)
    requires Valid(s) && s.docstring.Some? && s.lastStep.NoStep?
    ensures Finish(RunLines(s, lines)) == Finish(s)
    decreases |lines|
  {
    if lines != [] {
      var t := LineStep(s, lines[0]);
      assert t == s.(docstring := t.docstring, fence := t.fence, lineNo := t.lineNo);
      SwallowedFinish(s, t);
      UnattachedDocStringSwallowsRest(t, lines[1..]);
    }
  }

  lemma SwallowedFinish(s: State, t: State)
    requires Valid(s) && s.lastStep.NoStep? && t == s.(docstring := t.docstring, fence := t.fence, lineNo := t.lineNo)
    ensures Finish(t) == Finish(s)
  {
  }

  lemma PlainLineKeepsStep(s: State, line: Line, trimmed: string)
    requires Valid(s)
    ensures PlainLine(s, line, trimmed).lastStep.NoStep?
            <==> s.lastStep.NoStep? && !(line.StepLine? && !s.target.Nowhere?)
  {
    match line
    case Tags(tags) =>
    case FeatureHead(name) =>
    case OutlineHead(name) =>
    case ScenarioHead(name) =>
    case StepLine(keyword, text) =>
    case _ =>
  }

  /** There is no last step exactly until a step line is read with a list to add it to. */
  lemma FirstStepIsForGood(s: State, raw: string)
    requires Valid(s)
    ensures LineStep(s, raw).lastStep.NoStep?
            <==> s.lastStep.NoStep? && (s.docstring.Some? || !Classify(raw).StepLine? || s.target.Nowhere?)
  {
    ReadAsKeepsStep(Counted(s), raw, Classify(raw), Trim(raw));
  }

  lemma ReadAsKeepsStep(s: State, raw: string, line: Line, trimmed: string)
    requires Valid(s)
    ensures ReadAs(s, raw, line, trimmed).lastStep.NoStep?
            <==> s.lastStep.NoStep? && (s.docstring.Some? || !line.StepLine? || s.target.Nowhere?)
  {
    if s.docstring.Some? {
      DocLineKeepsStep(s, raw, DocLine(s, raw));
    } else {
      PlainLineKeepsStep(s, line, trimmed);
    }
  }

  lemma DocLineKeepsStep(s: State, raw: string, r: State)
    requires Valid(s) && s.docstring.Some? && r == DocLine(s, raw)
    ensures r.lastStep == s.lastStep
  {
  }

  /** The header of a new scenario leaves the last step where it was, in the scenario before. */
  lemma HeaderKeepsLastStep(s: State, raw: string, k: nat)
    requires Valid(s) && s.docstring.None? && s.lastStep == InScenario(k) && Classify(raw).ScenarioHead?
    ensures var t := LineStep(s, raw);
            t.lastStep == InScenario(k) && k < |t.feature.scenarios| - 1 && t.tableRows.None? && t.docstring.None?
            && !t.inExamples
  {
  }

  // ---------------------------------------------------------------- where attachments go

  /** The steps of what is being read: the list new steps go to. */
  function Reading(s: State): seq<Step>
    requires Valid(s)
  {
    match s.target
    case Nowhere => []
    case ToBackground => s.feature.background
    case ToScenario => s.feature.scenarios[|s.feature.scenarios| - 1].steps
    case ToOutline => s.outline.value.steps
  }

  /** The last step read is a step of what is being read. */
  predicate InItem(s: State)
    requires Valid(s)
  {
    match s.lastStep
    case NoStep => false
    case Lost => false
    case InBackground => s.target.ToBackground?
    case InScenario(k) => s.target.ToScenario? && k == |s.feature.scenarios| - 1
    case InOutline => s.target.ToOutline?
  }

  /** Rows waiting for the last step. */
  function PendingRows(s: State): Table { if s.tableRows.Some? then s.tableRows.value else [] }

  /** All steps but the last are as before, and the last one is changed at most in what is attached to it. */
  predicate LastGets(before: seq<Step>, after: seq<Step>, docstring: Option<seq<string>>, table: Option<Table>) {
    && before != [] && |after| == |before| && after[..|after| - 1] == before[..|before| - 1]
    && var x, y := before[|before| - 1], after[|after| - 1];
       && y == x.(docstring := y.docstring, table := y.table)
       && y.docstring == (if docstring.Some? then Some(Join(docstring.value, "\n")) else x.docstring)
       && y.table == (if table.Some? then table else x.table)
  }

  /** The list that holds the last step gets what is attached, and every other list stays: the background, each
      scenario, and the outline being read. Without a last step, or when its outline is already expanded, all stay. */
  predicate LandsOn(s: State, docstring: Option<seq<string>>, table: Option<Table>, r: State)
    requires Valid(s)
  {
    && (if s.lastStep.InBackground? then LastGets(s.feature.background, r.feature.background, docstring, table)
        else r.feature.background == s.feature.background)
    && |r.feature.scenarios| == |s.feature.scenarios|
    && (forall i :: 0 <= i < |s.feature.scenarios| ==>
          if s.lastStep == InScenario(i) then
            LastGets(s.feature.scenarios[i].steps, r.feature.scenarios[i].steps, docstring, table)
          else r.feature.scenarios[i] == s.feature.scenarios[i])
    && (if s.lastStep.InOutline? then
          r.outline.Some? && LastGets(s.outline.value.steps, r.outline.value.steps, docstring, table)
        else r.outline == s.outline)
  }

  lemma AttachedLast(steps: seq<Step>, docstring: Option<seq<string>>, table: Option<Table>, r: seq<Step>)
    requires steps != [] && r == AttachLast(steps, docstring, table)
    ensures LastGets(steps, r, docstring, table)
  {
  }

  lemma AttachmentGoesTo(s: State, docstring: Option<seq<string>>, table: Option<Table>, r: State)
    requires Valid(s) && r.feature == OnLast(s, docstring, table).feature && r.outline == OnLast(s, docstring, table).outline
    ensures LandsOn(s, docstring, table, r)
  {
    match s.lastStep
    case NoStep =>
    case Lost =>
    case InBackground => AttachedLast(s.feature.background, docstring, table, r.feature.background);
    case InScenario(k) => AttachedLast(s.feature.scenarios[k].steps, docstring, table, r.feature.scenarios[k].steps);
    case InOutline => AttachedLast(s.outline.value.steps, docstring, table, r.outline.value.steps);
  }

  lemma ReadingGets(s: State, docstring: Option<seq<string>>, table: Option<Table>, r: State)
    requires Valid(s) && r == OnLast(s, docstring, table)
    ensures InItem(s) ==> Reading(s) != [] && Reading(r) == AttachLast(Reading(s), docstring, table)
    ensures !InItem(s) ==> Reading(r) == Reading(s)
  {
  }

  // ---------------------------------------------------------------- table rows

  lemma RowClosesAs(s: State, raw: string, cells: seq<string>, c: State)
    requires Valid(s) && s.docstring.None? && !s.inExamples && Classify(raw) == Row(cells)
    requires c == CloseStep(LineStep(s, raw))
    ensures c == if s.lastStep.NoStep? then Counted(s)
                 else OnLast(Counted(s), None, Some(PendingRows(s) + [cells])).(docstring := None, tableRows := None)
  {
    RowPends(s, raw, cells, LineStep(s, raw));
  }

  /** Rows outside Examples and doc strings, once complete, go where the last step read is, with the rows before them. */
  lemma RowGoesTo(s: State, raw: string, cells: seq<string>, c: State)
    requires Valid(s) && s.docstring.None? && !s.inExamples && Classify(raw) == Row(cells)
    requires c == CloseStep(LineStep(s, raw))
    ensures LandsOn(s, None, Some(PendingRows(s) + [cells]), c)
  {
    RowClosesAs(s, raw, cells, c);
    SameLast(s, Counted(s), None, Some(PendingRows(s) + [cells]));
    AttachmentGoesTo(s, None, Some(PendingRows(s) + [cells]), c);
  }

  lemma RowPends(s: State, raw: string, cells: seq<string>, t: State)
    requires Valid(s) && s.docstring.None? && !s.inExamples && Classify(raw) == Row(cells) && t == LineStep(s, raw)
    ensures t == if s.lastStep.NoStep? then Counted(s) else Counted(s).(tableRows := Some(PendingRows(s) + [cells]))
  {
  }

  predicate HasTable(steps: seq<Step>, table: Table) {
    steps != [] && steps[|steps| - 1].table == Some(table)
  }

  lemma RowReaches(s: State, raw: string, cells: seq<string>, c: State)
    requires Valid(s) && s.docstring.None? && !s.inExamples && Classify(raw) == Row(cells)
    requires c == CloseStep(LineStep(s, raw))
    ensures InItem(s) ==> HasTable(Reading(c), PendingRows(s) + [cells])
    ensures !InItem(s) ==> Reading(c) == Reading(s)
  {
    RowClosesAs(s, raw, cells, c);
    if !s.lastStep.NoStep? {
      ReadingGets(Counted(s), None, Some(PendingRows(s) + [cells]), OnLast(Counted(s), None, Some(PendingRows(s) + [cells])));
    }
  }

  /** In Examples a row changes no step: it is the block's header, or one more scenario for its outline. */
  lemma ExampleRow(s: State, raw: string, cells: seq<string>, t: State)
    requires Valid(s) && s.docstring.None? && s.inExamples && Classify(raw) == Row(cells) && t == LineStep(s, raw)
    ensures t.feature == s.feature && t.outline == s.outline && t.lastStep == s.lastStep && t.target == s.target
    ensures t.docstring == s.docstring && t.tableRows == s.tableRows
    ensures s.examplesHeaders.None? ==> t.examplesHeaders == Some(cells)
    ensures s.examplesHeaders.Some? && s.outline.Some? ==>
              |Expansion(t)| == |Expansion(s)| + 1 && Expansion(s) <= Expansion(t)
              && FromRow(s.outline.value, s.examplesHeaders.value, s.examplesTags, cells, Expansion(t)[|Expansion(s)|])
  {
    if s.examplesHeaders.Some? && s.outline.Some? {
      RowExpands(s.outline.value, s.examplesHeaders.value, s.examplesTags, cells);
      assert Expansion(t) == Expansion(s) + [ExpandRow(s.outline.value, s.examplesHeaders.value, s.examplesTags, cells)];
    }
  }

  /** Whatever is being read keeps its steps. */
  lemma ExampleRowReaches(s: State, raw: string, cells: seq<string>, c: State)
    requires Valid(s) && s.docstring.None? && s.inExamples && Classify(raw) == Row(cells)
    requires c == CloseStep(LineStep(s, raw))
    ensures Reading(c) == Reading(CloseStep(s))
  {
    ExampleRow(s, raw, cells, LineStep(s, raw));
    SameLast(s, LineStep(s, raw), None, s.tableRows);
  }

  /** Outside doc strings, table rows become the table of the last step of what is being read if and only if that is
      not an Examples block, nor follows one that no scenario has ended, and the last step read is one of its steps. */
  lemma RowAttachesIff(s: State)
    requires Valid(s) && s.docstring.None?
    ensures (forall raw :: Classify(raw).Row? ==>
               HasTable(Reading(CloseStep(LineStep(s, raw))), PendingRows(s) + [Classify(raw).cells]))
            <==> !s.inExamples && InItem(s)
  {
    if !s.inExamples && InItem(s) {
      forall raw | Classify(raw).Row?
        ensures HasTable(Reading(CloseStep(LineStep(s, raw))), PendingRows(s) + [Classify(raw).cells])
      {
        RowReaches(s, raw, Classify(raw).cells, CloseStep(LineStep(s, raw)));
      }
    } else {
      var one, two := WriteRow([], ""), WriteRow([""], "");
      RowLine([], "");
      RowLine([""], "");
      NeitherReaches(s, one, two);
    }
  }

  lemma NeitherReaches(s: State, one: string, two: string)
    requires Valid(s) && s.docstring.None? && (s.inExamples || !InItem(s))
    requires Classify(one) == Row([]) && Classify(two) == Row([""])
    ensures !HasTable(Reading(CloseStep(LineStep(s, one))), PendingRows(s) + [[]])
            || !HasTable(Reading(CloseStep(LineStep(s, two))), PendingRows(s) + [[""]])
  {
    var c, d := CloseStep(LineStep(s, one)), CloseStep(LineStep(s, two));
    if s.inExamples {
      ExampleRowReaches(s, one, [], c);
      ExampleRowReaches(s, two, [""], d);
    } else {
      RowReaches(s, one, [], c);
      RowReaches(s, two, [""], d);
    }
    OneTable(Reading(c), PendingRows(s) + [[]], PendingRows(s) + [[""]]);
  }

  /** A Background header does not end an Examples block: the table rows of the background's steps go on expanding the
      outline, and the step read has no table. */
  lemma BackgroundRowExpands(s: State, head: string, line: string, raw: string, cells: seq<string>, t: State)
    requires Valid(s) && s.docstring.None? && s.tableRows.None? && s.inExamples && s.examplesHeaders.Some? && s.outline.Some?
    requires Classify(head).BackgroundHead? && Classify(line).StepLine? && Classify(raw) == Row(cells)
    requires t == LineStep(LineStep(LineStep(s, head), line), raw)
    ensures t.feature.background == s.feature.background + [Step(Classify(line).keyword, Classify(line).text, None, None)]
    ensures t.lastStep.InBackground? && t.tableRows.None?
    ensures |Expansion(t)| == |Expansion(s)| + 1 && Expansion(s) <= Expansion(t)
    ensures FromRow(s.outline.value, s.examplesHeaders.value, s.examplesTags, cells, Expansion(t)[|Expansion(s)|])
  {
    var u := LineStep(s, head);
    var v := LineStep(u, line);
    HeadKeepsExamples(s, head, u);
    StepKeepsExamples(u, line, v);
    ExampleRow(v, raw, cells, t);
  }

  predicate SameExamples(s: State, t: State) {
    && t.inExamples == s.inExamples && t.outline == s.outline && t.examplesHeaders == s.examplesHeaders
    && t.examplesRows == s.examplesRows && t.examplesTags == s.examplesTags
  }

  lemma NothingToClose(s: State)
    requires Valid(s) && s.docstring.None? && s.tableRows.None?
    ensures CloseStep(s).feature == s.feature && CloseStep(s).outline == s.outline
    ensures CloseStep(s).docstring.None? && CloseStep(s).tableRows.None?
  {
    match s.lastStep
    case NoStep =>
    case Lost =>
    case InBackground => AttachNothing(s.feature.background);
    case InScenario(k) => AttachNothing(s.feature.scenarios[k].steps);
    case InOutline => AttachNothing(s.outline.value.steps);
  }

  lemma HeadKeepsExamples(s: State, head: string, u: State)
    requires Valid(s) && s.docstring.None? && s.tableRows.None? && Classify(head).BackgroundHead? && u == LineStep(s, head)
    ensures SameExamples(s, u) && u.target.ToBackground? && u.docstring.None? && u.tableRows.None?
    ensures u.feature.background == s.feature.background
  {
    NothingToClose(Counted(s));
  }

  lemma StepKeepsExamples(u: State, line: string, v: State)
    requires Valid(u) && u.docstring.None? && u.tableRows.None? && u.target.ToBackground?
    requires Classify(line).StepLine? && v == LineStep(u, line)
    ensures SameExamples(u, v) && v.lastStep.InBackground? && v.docstring.None? && v.tableRows.None?
    ensures v.feature.background == u.feature.background + [Step(Classify(line).keyword, Classify(line).text, None, None)]
  {
    NothingToClose(Counted(u));
  }

  lemma OneTable(steps: seq<Step>, a: Table, b: Table)
    requires |a| > 0 && |b| > 0 && a[|a| - 1] != b[|b| - 1]
    ensures !(HasTable(steps, a) && HasTable(steps, b))
  {
  }

  // ---------------------------------------------------------------- doc strings

  predicate HasDoc(steps: seq<Step>, lines: seq<string>) {
    steps != [] && steps[|steps| - 1].docstring == Some(Join(lines, "\n"))
  }

  /** The closing fence attaches what was collected, and any rows that were waiting, where the last step is. */
  lemma FenceReaches(s: State, doc: DocString, l: Layout, r: State)
    requires Valid(s) && !s.lastStep.NoStep? && GoodDoc(doc) && GoodLayout(l)
    requires r == LineStep(InDoc(s, doc.fence, doc.lines), l.indent + doc.fence)
    ensures InItem(s) ==> HasDoc(Reading(r), doc.lines)
    ensures !InItem(s) ==> Reading(r) == Reading(s)
  {
    FenceTrimmed(doc.fence, "");
    assert doc.fence + "" == doc.fence;
    TrimPadded(l.indent, doc.fence, "");
    assert l.indent + doc.fence + "" == l.indent + doc.fence;
    var u := Counted(InDoc(s, doc.fence, doc.lines));
    var c := OnLast(u, Some(doc.lines), s.tableRows);
    CollectedReads(s, doc.fence, doc.lines, u);
    FenceCloses(u, l.indent + doc.fence, doc.fence, doc.lines, c, r);
    ReadingGets(u, Some(doc.lines), s.tableRows, c);
  }

  lemma CollectedReads(s: State, fence: string, lines: seq<string>, u: State)
    requires Valid(s) && u == Counted(InDoc(s, fence, lines))
    ensures Valid(u) && InItem(u) == InItem(s) && Reading(u) == Reading(s)
    ensures u.docstring == Some(lines) && u.fence == Some(fence) && u.tableRows == s.tableRows && u.lastStep == s.lastStep
  {
  }

  lemma FenceCloses(u: State, raw: string, fence: string, lines: seq<string>, c: State, r: State)
    requires Valid(u) && !u.lastStep.NoStep? && u.docstring == Some(lines) && u.fence == Some(fence) && Trim(raw) == fence
    requires c == OnLast(u, Some(lines), u.tableRows) && r == DocLine(u, raw)
    ensures r == c.(docstring := None, tableRows := None, fence := None) && Reading(r) == Reading(c)
  {
  }

  /** Before the first step, doc string lines change nothing but the collected lines. */
  lemma {:induction false} SwallowedReading(s: State, lines: seq<string>)
    requires Valid(s) && s.docstring.Some? && s.lastStep.NoStep?
    ensures Reading(RunLines(s, lines)) == Reading(s)
    decreases |lines|
  {
    if lines != [] {
      var t := LineStep(s, lines[0]);
      assert t == s.(docstring := t.docstring, fence := t.fence, lineNo := t.lineNo);
      SwallowedReading(t, lines[1..]);
    }
  }

  lemma DocReaches(s: State, doc: DocString, l: Layout, r: State)
    requires Valid(s) && s.docstring.None? && GoodDoc(doc) && GoodLayout(l) && r == RunLines(s, PrintDoc(doc, l))
    ensures InItem(s) ==> HasDoc(Reading(r), doc.lines)
    ensures !InItem(s) ==> Reading(r) == Reading(s)
  {
    var opening, closing := l.indent + (doc.fence + doc.media), l.indent + doc.fence;
    var t := InDoc(On(s, 1), doc.fence, []);
    DocOpens(s, doc, l);
    OnReads(s, 1, On(s, 1));
    if s.lastStep.NoStep? {
      RunFirst(s, opening, doc.lines + [closing]);
      SwallowedReading(t, doc.lines + [closing]);
    } else {
      RunThree(s, opening, doc.lines, closing);
      var u := On(s, 1 + |doc.lines|);
      OnReads(s, 1 + |doc.lines|, u);
      DocCollects(s, doc, t, u);
      FenceReaches(u, doc, l, r);
    }
  }

  lemma OnReads(s: State, n: nat, u: State)
    requires Valid(s) && u == On(s, n)
    ensures Valid(u) && InItem(u) == InItem(s) && Reading(u) == Reading(s)
    ensures u.lastStep == s.lastStep && u.docstring == s.docstring
  {
  }

  lemma DocCollects(s: State, doc: DocString, t: State, u: State)
    requires Valid(s) && GoodDoc(doc) && t == InDoc(On(s, 1), doc.fence, []) && u == On(s, 1 + |doc.lines|)
    ensures RunLines(t, doc.lines) == InDoc(u, doc.fence, doc.lines)
  {
    DocLines(On(s, 1), doc.fence, [], doc.lines, u);
    assert [] + doc.lines == doc.lines;
  }

  /** Doc strings become that of the last step of what is being read if and only if the last step read is one of
      its steps, in Examples too. */
  lemma DocAttachesIff(s: State)
    requires Valid(s) && s.docstring.None?
    ensures (forall doc, l :: GoodDoc(doc) && GoodLayout(l) ==> HasDoc(Reading(RunLines(s, PrintDoc(doc, l))), doc.lines))
            <==> InItem(s)
  {
    if InItem(s) {
      forall doc, l | GoodDoc(doc) && GoodLayout(l) ensures HasDoc(Reading(RunLines(s, PrintDoc(doc, l))), doc.lines) {
        DocReaches(s, doc, l, RunLines(s, PrintDoc(doc, l)));
      }
    } else {
      var one, two, l := DocString(QUOTES, "", []), DocString(QUOTES, "", ["a"]), Layout("", "");
      SmallDocs(one, two, l);
      DocReaches(s, one, l, RunLines(s, PrintDoc(one, l)));
      DocReaches(s, two, l, RunLines(s, PrintDoc(two, l)));
      assert Join([], "\n") == "" && Join(["a"], "\n") == "a";
    }
  }

  /** Where a doc string goes: with a step read before it, where that step is, and its fence closes it; without,
      nowhere, and it stays open. */
  lemma DocGoesTo(s: State, doc: DocString, l: Layout, r: State)
    requires Valid(s) && s.docstring.None? && GoodDoc(doc) && GoodLayout(l) && r == RunLines(s, PrintDoc(doc, l))
    ensures LandsOn(s, Some(doc.lines), s.tableRows, r)
    ensures r.docstring.Some? <==> s.lastStep.NoStep?
  {
    var opening, closing := l.indent + (doc.fence + doc.media), l.indent + doc.fence;
    var t := InDoc(On(s, 1), doc.fence, []);
    DocOpens(s, doc, l);
    if s.lastStep.NoStep? {
      RunFirst(s, opening, doc.lines + [closing]);
      SwallowedStays(t, doc.lines + [closing]);
    } else {
      RunThree(s, opening, doc.lines, closing);
      var u := On(s, 1 + |doc.lines|);
      OnReads(s, 1 + |doc.lines|, u);
      DocCollects(s, doc, t, u);
      FenceGoesTo(s, u, doc, l, r);
    }
  }

  lemma {:induction false} SwallowedStays(s: State, lines: seq<string>)
    requires Valid(s) && s.docstring.Some? && s.lastStep.NoStep?
    ensures var r := RunLines(s, lines); r.feature == s.feature && r.outline == s.outline && r.docstring.Some?
    decreases |lines|
  {
    if lines != [] {
      var t := LineStep(s, lines[0]);
      assert t == s.(docstring := t.docstring, fence := t.fence, lineNo := t.lineNo) && t.docstring.Some?;
      SwallowedStays(t, lines[1..]);
    }
  }

  lemma FenceGoesTo(s: State, u: State, doc: DocString, l: Layout, r: State)
    requires Valid(s) && !s.lastStep.NoStep? && GoodDoc(doc) && GoodLayout(l) && u == On(s, 1 + |doc.lines|)
    requires r == LineStep(InDoc(u, doc.fence, doc.lines), l.indent + doc.fence)
    ensures LandsOn(s, Some(doc.lines), s.tableRows, r) && r.docstring.None?
  {
    FenceTrimmed(doc.fence, "");
    assert doc.fence + "" == doc.fence;
    TrimPadded(l.indent, doc.fence, "");
    assert l.indent + doc.fence + "" == l.indent + doc.fence;
    var v := Counted(InDoc(u, doc.fence, doc.lines));
    CollectedReads(u, doc.fence, doc.lines, v);
    FenceCloses(v, l.indent + doc.fence, doc.fence, doc.lines, OnLast(v, Some(doc.lines), v.tableRows), r);
    SameLast(s, v, Some(doc.lines), s.tableRows);
    AttachmentGoesTo(s, Some(doc.lines), s.tableRows, r);
  }

  lemma SameLast(s: State, v: State, docstring: Option<seq<string>>, table: Option<Table>)
    requires Valid(s) && Valid(v) && v.feature == s.feature && v.outline == s.outline && v.lastStep == s.lastStep
    ensures OnLast(v, docstring, table).feature == OnLast(s, docstring, table).feature
    ensures OnLast(v, docstring, table).outline == OnLast(s, docstring, table).outline
  {
  }

  lemma SmallDocs(one: DocString, two: DocString, l: Layout)
    requires one == DocString(QUOTES, "", []) && two == DocString(QUOTES, "", ["a"]) && l == Layout("", "")
    ensures GoodDoc(one) && GoodDoc(two) && GoodLayout(l)
  {
    assert two.lines[0] == "a" && Trimmed("a");
    TrimSame("a");
  }
}
