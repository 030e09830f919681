// WebdriverIO reports: one spec per top-level suite, with the tests of its nested suites.
module WebdriverIO {
  import opened Text
  import opened Normalized

  datatype Case = Case(name: string, title: string, fullTitle: string, state: string, duration: Reading)

  datatype Suite = Suite(name: string, title: string, file: string, tests: seq<Case>, suites: seq<Suite>,
                         duration: Option<Reading>)

  datatype SpecResult = SpecResult(filename: string, file: string, suites: seq<Suite>)

  datatype Report = Report(specs: seq<SpecResult>, suites: seq<Suite>)

  /** The first text that is not empty. */
  function FirstOf(a: string, b: string, c: string): string {
    if a != "" then a else if b != "" then b else c
  }

  function MapStatus(state: string): Status {
    if state == "passed" then Passed
    else if state == "failed" then Failed
    else if state == "pending" then Pending
    else Skipped
  }

  function TestOf(test: Case, prefix: string): Test {
    var title := FirstOf(test.name, test.title, "Unknown test");
    Test(title, if test.fullTitle != "" then test.fullTitle else prefix + " > " + title,
         MapStatus(test.state), SafeDuration(test.duration))
  }

  function CaseTests(cases: seq<Case>, prefix: string): (r: seq<Test>)
    ensures |r| == |cases|
  {
    if cases == [] then [] else CaseTests(cases[..|cases| - 1], prefix) + [TestOf(cases[|cases| - 1], prefix)]
  }

  function Prefix(suite: Suite, parentTitle: string): string {
    var name := FirstOf(suite.name, suite.title, "");
    if parentTitle != "" then parentTitle + " > " + name else name
  }

  /** Every test of the suites, depth first. */
  function TreeTests(suites: seq<Suite>, parentTitle: string): seq<Test>
    decreases suites
  {
    if suites == [] then []
    else
      var last := suites[|suites| - 1];
      TreeTests(suites[..|suites| - 1], parentTitle)
      + (CaseTests(last.tests, Prefix(last, parentTitle)) + TreeTests(last.suites, Prefix(last, parentTitle)))
  }

  /** The tests of one suite and of all below it. */
  function SuiteTests(suite: Suite, parentTitle: string): seq<Test> {
    CaseTests(suite.tests, Prefix(suite, parentTitle)) + TreeTests(suite.suites, Prefix(suite, parentTitle))
  }

  lemma Take(suites: seq<Suite>, i: nat, parentTitle: string)
    requires i < |suites|
    ensures TreeTests(suites[..i + 1], parentTitle) == TreeTests(suites[..i], parentTitle) + SuiteTests(suites[i], parentTitle)
  {
    assert suites[..i + 1][..i] == suites[..i];
  }

  lemma Behind(a: seq<Test>, b: seq<Test>, c: seq<Test>)
    ensures a + b + c == a + (b + c)
  {
  }

  method CollectTests(suite: Suite, parentTitle: string) returns (tests: seq<Test>)
    ensures tests == SuiteTests(suite, parentTitle)
    decreases suite
  {
    var fullPrefix := Prefix(suite, parentTitle);
    tests := [];
    for i := 0 to |suite.tests|
      invariant tests == CaseTests(suite.tests[..i], fullPrefix)
    {
      assert suite.tests[..i + 1][..i] == suite.tests[..i];
      tests := tests + [TestOf(suite.tests[i], fullPrefix)];
    }
    assert suite.tests[..|suite.tests|] == suite.tests;
    ghost var own := tests;
    assert own + [] == own;
    for i := 0 to |suite.suites|
      invariant tests == own + TreeTests(suite.suites[..i], fullPrefix)
    {
      var nested := CollectTests(suite.suites[i], fullPrefix);
      Take(suite.suites, i, fullPrefix);
      Behind(own, TreeTests(suite.suites[..i], fullPrefix), nested);
      tests := tests + nested;
    }
    assert suite.suites[..|suite.suites|] == suite.suites;
  }

  /** A spec's duration is what its suite reports, if it reports one, and not the sum of its tests. */
  function SpecOf(suite: Suite, filePath: string): Spec {
    var tests := SuiteTests(suite, "");
    var base := BaseName(filePath);
    Spec(filePath, FirstOf(suite.name, suite.title, if base != "" then base else filePath), Tally(tests),
         SafeDuration(if suite.duration.Some? then suite.duration.value else Finite(SumDurations(tests))), tests)
  }

  lemma TestsTimed(cases: seq<Case>, suites: seq<Suite>, prefix: string)
    ensures SumDurations(CaseTests(cases, prefix) + TreeTests(suites, prefix)) >= 0.0
  {
    CasesNonNegative(cases, prefix);
    TreeNonNegative(suites, prefix);
    DurationsNonNegative(CaseTests(cases, prefix) + TreeTests(suites, prefix));
  }

  lemma {:induction false} CasesNonNegative(cases: seq<Case>, prefix: string)
    ensures forall i :: 0 <= i < |CaseTests(cases, prefix)| ==> CaseTests(cases, prefix)[i].duration >= 0.0
  {
    if cases != [] { CasesNonNegative(cases[..|cases| - 1], prefix); }
  }

  lemma {:induction false} TreeNonNegative(suites: seq<Suite>, parentTitle: string)
    ensures forall i :: 0 <= i < |TreeTests(suites, parentTitle)| ==> TreeTests(suites, parentTitle)[i].duration >= 0.0
    decreases suites
  {
    if suites != [] {
      var last := suites[|suites| - 1];
      TreeNonNegative(suites[..|suites| - 1], parentTitle);
      CasesNonNegative(last.tests, Prefix(last, parentTitle));
      TreeNonNegative(last.suites, Prefix(last, parentTitle));
    }
  }

  method ParseSuiteToSpec(suite: Suite, filePath: string) returns (spec: Spec)
    ensures spec == SpecOf(suite, filePath)
    ensures spec.filePath == filePath
    ensures spec.title == if suite.name != "" then suite.name else if suite.title != "" then suite.title
                          else if BaseName(filePath) != "" then BaseName(filePath) else filePath
    ensures suite.duration.Some? ==> Timed(suite.duration.value, spec.duration)
    ensures suite.duration.None? ==> spec.duration == SumDurations(spec.tests)
  {
    var tests := CollectTests(suite, "");
    var base := BaseName(filePath);
    TestsTimed(suite.tests, suite.suites, Prefix(suite, ""));
    spec := Spec(filePath, FirstOf(suite.name, suite.title, if base != "" then base else filePath), Tally(tests),
                 SafeDuration(if suite.duration.Some? then suite.duration.value else Finite(SumDurations(tests))), tests);
  }

  /** A suite with the file its spec is filed under. */
  datatype Filed = Filed(suite: Suite, filePath: string)

  function FileAll(suites: seq<Suite>, filePath: string): (r: seq<Filed>)
    ensures |r| == |suites| && forall i :: 0 <= i < |r| ==> r[i] == Filed(suites[i], filePath)
  {
    seq(|suites|, i requires 0 <= i < |suites| => Filed(suites[i], filePath))
  }

  function FiledSpecs(specs: seq<SpecResult>): seq<Filed> {
    if specs == [] then []
    else
      var last := specs[|specs| - 1];
      FiledSpecs(specs[..|specs| - 1]) + FileAll(last.suites, FirstOf(last.filename, last.file, "unknown"))
  }

  function FiledSuites(suites: seq<Suite>): (r: seq<Filed>)
    ensures |r| == |suites|
  {
    seq(|suites|, i requires 0 <= i < |suites| => Filed(suites[i], FirstOf(suites[i].file, suites[i].name, "unknown")))
  }

  /** The suites the run is made of: those of the spec results, or the top-level ones if there are none. */
  function Chosen(report: Report): seq<Filed> {
    if report.specs != [] then FiledSpecs(report.specs) else FiledSuites(report.suites)
  }

  function FiledSpec(filed: Filed): Spec { SpecOf(filed.suite, filed.filePath) }

  function FiledTests(filed: Filed): seq<Test> { SuiteTests(filed.suite, "") }

  /** Every test of the chosen suites. */
  function ChosenTests(filed: seq<Filed>): seq<Test> {
    Gather(filed, FiledTests)
  }

  lemma MapMore(filed: seq<Filed>, more: seq<Filed>, i: nat)
    requires i < |more|
    ensures MapSpecs(filed + more[..i + 1], FiledSpec) == MapSpecs(filed + more[..i], FiledSpec) + [FiledSpec(more[i])]
  {
    TakeOne(filed, more, i);
    var all := filed + more[..i + 1];
    assert all[..|all| - 1] == filed + more[..i];
  }

  /** The specs of these suites, behind those there are. */
  method ParseSuites(more: seq<Filed>, before: seq<Spec>, ghost done: seq<Filed>) returns (specs: seq<Spec>)
    requires before == MapSpecs(done, FiledSpec)
    ensures specs == MapSpecs(done + more, FiledSpec)
  {
    specs := before;
    assert done + more[..0] == done;
    for i := 0 to |more|
      invariant specs == MapSpecs(done + more[..i], FiledSpec)
    {
      var spec := ParseSuiteToSpec(more[i].suite, more[i].filePath);
      MapMore(done, more, i);
      specs := specs + [spec];
    }
    assert more[..|more|] == more;
  }

  method ParseSpecResults(results: seq<SpecResult>) returns (specs: seq<Spec>)
    ensures specs == MapSpecs(FiledSpecs(results), FiledSpec)
  {
    specs := [];
    for i := 0 to |results|
      invariant specs == MapSpecs(FiledSpecs(results[..i]), FiledSpec)
    {
      assert results[..i + 1][..i] == results[..i];
      var filePath := FirstOf(results[i].filename, results[i].file, "unknown");
      specs := ParseSuites(FileAll(results[i].suites, filePath), specs, FiledSpecs(results[..i]));
    }
    assert results[..|results|] == results;
  }

  // ---------------------------------------------------------------- what the report says of each test

  /** A case with the names of the suites around it, outermost first. */
  datatype Placed = Placed(path: seq<string>, said: Case)

  function PlacedCases(cases: seq<Case>, path: seq<string>): seq<Placed> {
    seq(|cases|, i requires 0 <= i < |cases| => Placed(path, cases[i]))
  }

  /** The cases of the suites, depth first: a suite's own, then those of the suites in it. */
  function PlacedIn(suites: seq<Suite>, path: seq<string>): seq<Placed>
    decreases suites
  {
    if suites == [] then []
    else
      var last := suites[|suites| - 1];
      var inside := path + [NameOf(last)];
      PlacedIn(suites[..|suites| - 1], path) + (PlacedCases(last.tests, inside) + PlacedIn(last.suites, inside))
  }

  predicate Passes(placed: Placed) { placed.said.state == "passed" }

  predicate Fails(placed: Placed) { placed.said.state == "failed" }

  predicate Waits(placed: Placed) { placed.said.state == "pending" }

  predicate Skips(placed: Placed) { placed.said.state !in {"passed", "failed", "pending"} }

  /** A test is what the report says: its state decides the status, the name comes before the title, and a test
      without a full title is named after the suites around it. */
  predicate Tells(placed: Placed, test: Test) {
    && (test.status.Passed? <==> Passes(placed)) && (test.status.Failed? <==> Fails(placed))
    && (test.status.Pending? <==> Waits(placed)) && (test.status.Skipped? <==> Skips(placed))
    && Timed(placed.said.duration, test.duration)
    && (placed.said.name != "" ==> test.title == placed.said.name)
    && (placed.said.name == "" && placed.said.title != "" ==> test.title == placed.said.title)
    && (placed.said.name == "" && placed.said.title == "" ==> test.title == "Unknown test")
    && (placed.said.fullTitle != "" ==> test.fullTitle == placed.said.fullTitle)
    && (placed.said.fullTitle == "" && placed.path != [] && "" !in placed.path ==>
          test.fullTitle == Join(placed.path + [test.title], " > "))
  }

  /** A suite is known by its name, or else by its title. */
  function NameOf(suite: Suite): string { if suite.name == "" then suite.title else suite.name }


  /** The title that stands for a path: its names joined, unless one is empty. */
  predicate Names(title: string, path: seq<string>) {
    "" !in path ==> title == Join(path, " > ") && (path != [] ==> title != "")
  }

  lemma NamesNext(title: string, path: seq<string>, name: string)
    requires Names(title, path)
    ensures Names(if title != "" then title + " > " + name else name, path + [name])
  {
    if "" !in path + [name] {
      assert forall n :: n in path ==> n in path + [name];
      JoinNext(path, name, " > ");
    }
  }

  lemma CaseTold(said: Case, title: string, path: seq<string>, test: Test)
    requires Names(title, path) && test == TestOf(said, title)
    ensures Tells(Placed(path, said), test)
  {
    JoinNext(path, test.title, " > ");
  }

  lemma {:induction false} CasesTold(cases: seq<Case>, title: string, path: seq<string>)
    requires Names(title, path)
    ensures Told(CaseTests(cases, title), PlacedCases(cases, path), Tells)
  {
    if cases != [] {
      var front, last := cases[..|cases| - 1], cases[|cases| - 1];
      CasesTold(front, title, path);
      var test := TestOf(last, title);
      CaseTold(last, title, path, test);
      ToldAppend(CaseTests(front, title), PlacedCases(front, path), [test], [Placed(path, last)], Tells);
      assert PlacedCases(cases, path) == PlacedCases(front, path) + [Placed(path, last)];
    }
  }

  lemma {:induction false} TreeTold(suites: seq<Suite>, title: string, path: seq<string>)
    requires Names(title, path)
    ensures Told(TreeTests(suites, title), PlacedIn(suites, path), Tells)
    decreases suites
  {
    if suites != [] {
      var front, last := suites[..|suites| - 1], suites[|suites| - 1];
      var name, inside := Prefix(last, title), path + [NameOf(last)];
      NamesNext(title, path, NameOf(last));
      TreeTold(front, title, path);
      CasesTold(last.tests, name, inside);
      TreeTold(last.suites, name, inside);
      var own, below := CaseTests(last.tests, name), TreeTests(last.suites, name);
      ToldAppend(own, PlacedCases(last.tests, inside), below, PlacedIn(last.suites, inside), Tells);
      ToldAppend(TreeTests(front, title), PlacedIn(front, path), own + below,
                 PlacedCases(last.tests, inside) + PlacedIn(last.suites, inside), Tells);
    }
  }

  /** The report's cases: those of its spec results, or of the top-level suites if there are none. */
  function ReportCases(report: Report): seq<Placed> {
    if |report.specs| == 0 then PlacedIn(report.suites, []) else SpecCases(report.specs)
  }

  function SpecCases(specs: seq<SpecResult>): seq<Placed> {
    if specs == [] then [] else SpecCases(specs[..|specs| - 1]) + PlacedIn(specs[|specs| - 1].suites, [])
  }

  lemma {:induction false} TopTests(suites: seq<Suite>, filed: seq<Filed>)
    requires |filed| == |suites| && forall i :: 0 <= i < |suites| ==> filed[i].suite == suites[i]
    ensures ChosenTests(filed) == TreeTests(suites, "")
  {
    if suites != [] { TopTests(suites[..|suites| - 1], filed[..|suites| - 1]); }
  }

  lemma {:induction false} SpecsTold(specs: seq<SpecResult>)
    ensures Told(ChosenTests(FiledSpecs(specs)), SpecCases(specs), Tells)
  {
    if specs != [] {
      var front, last := specs[..|specs| - 1], specs[|specs| - 1];
      var more := FileAll(last.suites, FirstOf(last.filename, last.file, "unknown"));
      SpecsTold(front);
      TopTests(last.suites, more);
      TreeTold(last.suites, "", []);
      GatherAppend(FiledSpecs(front), more, FiledTests);
      ToldAppend(ChosenTests(FiledSpecs(front)), SpecCases(front), ChosenTests(more), PlacedIn(last.suites, []), Tells);
    }
  }

  lemma ReportTold(report: Report)
    ensures Told(ChosenTests(Chosen(report)), ReportCases(report), Tells)
  {
    if report.specs == [] {
      TopTests(report.suites, FiledSuites(report.suites));
      TreeTold(report.suites, "", []);
    } else {
      SpecsTold(report.specs);
    }
  }

  /** The counters are those of the report's own states. */
  lemma StatesCounted(tests: seq<Test>, cases: seq<Placed>, counts: Counts)
    requires Told(tests, cases, Tells) && counts == Tally(tests)
    ensures counts.total == |cases| && counts.passed == CountIf(cases, Passes) && counts.failed == CountIf(cases, Fails)
    ensures counts.skipped == CountIf(cases, Skips) && counts.pending == CountIf(cases, Waits)
  {
    ToldCount(tests, cases, Tells, Passed, Passes);
    ToldCount(tests, cases, Tells, Failed, Fails);
    ToldCount(tests, cases, Tells, Skipped, Skips);
    ToldCount(tests, cases, Tells, Pending, Waits);
  }

  /** The suites of a spec result are filed, behind those of the results before it, under its file name, or else its file. */
  lemma ResultFiles(specs: seq<SpecResult>, result: SpecResult) returns (more: seq<Filed>)
    ensures FiledSpecs(specs + [result]) == FiledSpecs(specs) + more && |more| == |result.suites|
    ensures forall i :: 0 <= i < |more| ==>
              more[i].suite == result.suites[i]
              && more[i].filePath == if result.filename != "" then result.filename else if result.file != "" then result.file else "unknown"
  {
    assert (specs + [result])[..|specs|] == specs;
    more := FileAll(result.suites, FirstOf(result.filename, result.file, "unknown"));
  }

  /** Where the report has top-level suites only, each is filed under its file, or else its name. */
  lemma SuiteFiles(report: Report, i: nat)
    requires report.specs == [] && i < |report.suites|
    ensures var filed, suite := Chosen(report)[i], report.suites[i];
            && filed.suite == suite
            && (suite.file != "" ==> filed.filePath == suite.file)
            && (suite.file == "" && suite.name != "" ==> filed.filePath == suite.name)
            && (suite.file == "" && suite.name == "" ==> filed.filePath == "unknown")
  {
  }

  // ---------------------------------------------------------------- the run

  /** The pending counter is taken from the tests, the others from the specs: they agree. */
  method ParseWebdriverIO(report: Report) returns (run: Run)
    ensures run.specs == MapSpecs(Chosen(report), FiledSpec)
    ensures AllTests(run.specs) == ChosenTests(Chosen(report)) && Told(AllTests(run.specs), ReportCases(report), Tells)
    ensures Conserves(run, multiset(ChosenTests(Chosen(report))))
    ensures run.counts.passed == CountIf(ReportCases(report), Passes) && run.counts.failed == CountIf(ReportCases(report), Fails)
    ensures run.counts.skipped == CountIf(ReportCases(report), Skips) && run.counts.pending == CountIf(ReportCases(report), Waits)
    ensures run.counts.total == |ReportCases(report)| && run.duration == SumTimes(run.specs)
  {
    var specs: seq<Spec>;
    if |report.specs| > 0 {
      specs := ParseSpecResults(report.specs);
    } else {
      assert [] + FiledSuites(report.suites) == FiledSuites(report.suites);
      specs := ParseSuites(FiledSuites(report.suites), [], []);
    }
    SpecsGather(Chosen(report), FiledSpec, FiledTests);
    SumIsTally(specs);
    run := Run(SumCounts(specs).(pending := CountStatus(AllTests(specs), Pending)), SumTimes(specs), specs);
    RunConserves(run, multiset(ChosenTests(Chosen(report))));
    ReportTold(report);
    StatesCounted(AllTests(run.specs), ReportCases(report), run.counts);
  }
}
