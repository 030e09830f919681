// Mochawesome reports: the tests of each result file, its own and those of its nested suites.
module Mochawesome {
  import opened Text
  import opened Normalized

  datatype Case = Case(title: string, fullTitle: Option<string>, pass: bool, fail: bool, pending: bool, duration: Reading)

  datatype Suite = Suite(title: string, tests: seq<Case>, suites: seq<Suite>)

  datatype ResultFile = ResultFile(file: string, title: string, tests: seq<Case>, suites: seq<Suite>)

  /** The first flag that is set decides; a test with none of them was skipped. */
  function GetStatus(test: Case): Status {
    if test.pass then Passed else if test.fail then Failed else if test.pending then Pending else Skipped
  }

  /** A test of a suite is titled after it; one directly on a result has its own title only. */
  function TestOf(test: Case, prefix: string): Test {
    Test(test.title, if test.fullTitle.Some? then test.fullTitle.value else prefix + test.title,
         GetStatus(test), SafeDuration(test.duration))
  }

  function CaseTests(cases: seq<Case>, prefix: string): (r: seq<Test>)
    ensures |r| == |cases|
  {
    if cases == [] then [] else CaseTests(cases[..|cases| - 1], prefix) + [TestOf(cases[|cases| - 1], prefix)]
  }

  function SuiteTitle(suite: Suite, parentTitle: string): string {
    if parentTitle != "" then parentTitle + " > " + suite.title else suite.title
  }

  /** Every test of the suites, depth first. */
  function TreeTests(suites: seq<Suite>, parentTitle: string): seq<Test>
    decreases suites
  {
    if suites == [] then []
    else
      var last := suites[|suites| - 1];
      var title := SuiteTitle(last, parentTitle);
      TreeTests(suites[..|suites| - 1], parentTitle) + (CaseTests(last.tests, title + " > ") + TreeTests(last.suites, title))
  }

  lemma Take(suites: seq<Suite>, i: nat, parentTitle: string)
    requires i < |suites|
    ensures var title := SuiteTitle(suites[i], parentTitle);
            TreeTests(suites[..i + 1], parentTitle)
            == TreeTests(suites[..i], parentTitle) + (CaseTests(suites[i].tests, title + " > ") + TreeTests(suites[i].suites, title))
  {
    assert suites[..i + 1][..i] == suites[..i];
  }

  method CollectCases(cases: seq<Case>, prefix: string) returns (tests: seq<Test>)
    ensures tests == CaseTests(cases, prefix)
  {
    tests := [];
    for i := 0 to |cases|
      invariant tests == CaseTests(cases[..i], prefix)
    {
      assert cases[..i + 1][..i] == cases[..i];
      tests := tests + [TestOf(cases[i], prefix)];
    }
    assert cases[..|cases|] == cases;
  }

  method CollectTests(suite: Suite, parentTitle: string) returns (tests: seq<Test>)
    ensures var title := SuiteTitle(suite, parentTitle);
            tests == CaseTests(suite.tests, title + " > ") + TreeTests(suite.suites, title)
    decreases suite
  {
    var suiteTitle := SuiteTitle(suite, parentTitle);
    var own := CollectCases(suite.tests, suiteTitle + " > ");
    tests := own;
    assert own + [] == own;
    for i := 0 to |suite.suites|
      invariant tests == own + TreeTests(suite.suites[..i], suiteTitle)
    {
      var nested := CollectTests(suite.suites[i], suiteTitle);
      Take(suite.suites, i, suiteTitle);
      Behind(own, TreeTests(suite.suites[..i], suiteTitle), nested);
      tests := tests + nested;
    }
    assert suite.suites[..|suite.suites|] == suite.suites;
  }

  lemma Behind(a: seq<Test>, b: seq<Test>, c: seq<Test>)
    ensures a + b + c == a + (b + c)
  {
  }

  function FileTests(result: ResultFile): seq<Test> {
    CaseTests(result.tests, "") + TreeTests(result.suites, "")
  }

  function SpecOf(result: ResultFile): Spec {
    var tests := FileTests(result);
    Spec(result.file, if result.title != "" then result.title else result.file, Tally(tests), SumDurations(tests), tests)
  }

  /** Every test of the report. */
  function ReportTests(results: seq<ResultFile>): seq<Test> {
    Gather(results, FileTests)
  }

  method ParseResult(result: ResultFile) returns (spec: Spec)
    ensures spec == SpecOf(result)
    ensures spec.filePath == result.file && spec.title == (if result.title == "" then result.file else result.title)
    ensures spec.duration == SumDurations(spec.tests)
  {
    var own := CollectCases(result.tests, "");
    var tests := own;
    assert own + [] == own;
    for i := 0 to |result.suites|
      invariant tests == own + TreeTests(result.suites[..i], "")
    {
      var nested := CollectTests(result.suites[i], "");
      Take(result.suites, i, "");
      Behind(own, TreeTests(result.suites[..i], ""), nested);
      tests := tests + nested;
    }
    assert result.suites[..|result.suites|] == result.suites;
    spec := Spec(result.file, if result.title != "" then result.title else result.file, Tally(tests), SumDurations(tests), tests);
  }

  // ---------------------------------------------------------------- what the report says of each test

  /** A case with the names of the suites around it, outermost first. */
  datatype Placed = Placed(path: seq<string>, said: Case)

  function PlacedCases(cases: seq<Case>, path: seq<string>): seq<Placed> {
    seq(|cases|, i requires 0 <= i < |cases| => Placed(path, cases[i]))
  }

  /** The cases of the suites, depth first: a suite's own, then those of the suites in it. */
  function PlacedIn(suites: seq<Suite>, path: seq<string>): seq<Placed>
    decreases suites
  {
    if suites == [] then []
    else
      var last := suites[|suites| - 1];
      var inside := path + [last.title];
      PlacedIn(suites[..|suites| - 1], path) + (PlacedCases(last.tests, inside) + PlacedIn(last.suites, inside))
  }

  predicate Passes(placed: Placed) { placed.said.pass }

  predicate Fails(placed: Placed) { placed.said.fail && !placed.said.pass }

  predicate Waits(placed: Placed) { placed.said.pending && !placed.said.pass && !placed.said.fail }

  predicate Skips(placed: Placed) { !placed.said.pass && !placed.said.fail && !placed.said.pending }

  /** A test is what the report says: its flags decide the status, and a test without a full title is named after the
      suites around it. */
  predicate Tells(placed: Placed, test: Test) {
    && (test.status.Passed? <==> Passes(placed)) && (test.status.Failed? <==> Fails(placed))
    && (test.status.Pending? <==> Waits(placed)) && (test.status.Skipped? <==> Skips(placed))
    && Timed(placed.said.duration, test.duration) && test.title == placed.said.title
    && (placed.said.fullTitle.Some? ==> test.fullTitle == placed.said.fullTitle.value)
    && (placed.said.fullTitle.None? && "" !in placed.path ==> test.fullTitle == Join(placed.path + [test.title], " > "))
  }


  /** The title that stands for a path: its names joined, unless one is empty. */
  predicate Names(title: string, path: seq<string>) {
    "" !in path ==> title == Join(path, " > ") && (path != [] ==> title != "")
  }

  lemma NamesNext(title: string, path: seq<string>, name: string)
    requires Names(title, path)
    ensures Names(if title != "" then title + " > " + name else name, path + [name])
  {
    if "" !in path + [name] {
      assert forall n :: n in path ==> n in path + [name];
      JoinNext(path, name, " > ");
    }
  }

  /** What comes before the title of a test at a path. */
  function Before(title: string, path: seq<string>): string { if path == [] then "" else title + " > " }

  lemma CaseTold(said: Case, title: string, path: seq<string>, test: Test)
    requires Names(title, path) && test == TestOf(said, Before(title, path))
    ensures Tells(Placed(path, said), test)
  {
    JoinNext(path, test.title, " > ");
  }

  lemma {:induction false} CasesTold(cases: seq<Case>, title: string, path: seq<string>)
    requires Names(title, path)
    ensures Told(CaseTests(cases, Before(title, path)), PlacedCases(cases, path), Tells)
  {
    if cases != [] {
      var front, last := cases[..|cases| - 1], cases[|cases| - 1];
      CasesTold(front, title, path);
      var test := TestOf(last, Before(title, path));
      CaseTold(last, title, path, test);
      ToldAppend(CaseTests(front, Before(title, path)), PlacedCases(front, path), [test], [Placed(path, last)], Tells);
      assert PlacedCases(cases, path) == PlacedCases(front, path) + [Placed(path, last)];
    }
  }

  lemma {:induction false} TreeTold(suites: seq<Suite>, title: string, path: seq<string>)
    requires Names(title, path)
    ensures Told(TreeTests(suites, title), PlacedIn(suites, path), Tells)
    decreases suites
  {
    if suites != [] {
      var front, last := suites[..|suites| - 1], suites[|suites| - 1];
      var name, inside := SuiteTitle(last, title), path + [last.title];
      NamesNext(title, path, last.title);
      TreeTold(front, title, path);
      CasesTold(last.tests, name, inside);
      TreeTold(last.suites, name, inside);
      var own, below := CaseTests(last.tests, Before(name, inside)), TreeTests(last.suites, name);
      ToldAppend(own, PlacedCases(last.tests, inside), below, PlacedIn(last.suites, inside), Tells);
      ToldAppend(TreeTests(front, title), PlacedIn(front, path), own + below,
                 PlacedCases(last.tests, inside) + PlacedIn(last.suites, inside), Tells);
    }
  }

  /** The report's cases: of each result its own, then those of its suites. */
  function ReportCases(results: seq<ResultFile>): seq<Placed> {
    if results == [] then []
    else
      var last := results[|results| - 1];
      ReportCases(results[..|results| - 1]) + (PlacedCases(last.tests, []) + PlacedIn(last.suites, []))
  }

  lemma {:induction false} ReportTold(results: seq<ResultFile>)
    ensures Told(ReportTests(results), ReportCases(results), Tells)
  {
    if results != [] {
      var front, last := results[..|results| - 1], results[|results| - 1];
      ReportTold(front);
      CasesTold(last.tests, "", []);
      TreeTold(last.suites, "", []);
      var own, below := CaseTests(last.tests, ""), TreeTests(last.suites, "");
      ToldAppend(own, PlacedCases(last.tests, []), below, PlacedIn(last.suites, []), Tells);
      ToldAppend(ReportTests(front), ReportCases(front), own + below,
                 PlacedCases(last.tests, []) + PlacedIn(last.suites, []), Tells);
    }
  }

  /** The counters are those of the report's own flags. */
  lemma FlagsCounted(tests: seq<Test>, cases: seq<Placed>, counts: Counts)
    requires Told(tests, cases, Tells) && counts == Tally(tests)
    ensures counts.total == |cases| && counts.passed == CountIf(cases, Passes) && counts.failed == CountIf(cases, Fails)
    ensures counts.skipped == CountIf(cases, Skips) && counts.pending == CountIf(cases, Waits)
  {
    ToldCount(tests, cases, Tells, Passed, Passes);
    ToldCount(tests, cases, Tells, Failed, Fails);
    ToldCount(tests, cases, Tells, Skipped, Skips);
    ToldCount(tests, cases, Tells, Pending, Waits);
  }

  // ---------------------------------------------------------------- the run

  method ParseMochawesome(results: seq<ResultFile>) returns (run: Run)
    ensures run.specs == MapSpecs(results, SpecOf)
    ensures AllTests(run.specs) == ReportTests(results) && Told(AllTests(run.specs), ReportCases(results), Tells)
    ensures Conserves(run, multiset(ReportTests(results)))
    ensures run.counts.passed == CountIf(ReportCases(results), Passes) && run.counts.failed == CountIf(ReportCases(results), Fails)
    ensures run.counts.skipped == CountIf(ReportCases(results), Skips) && run.counts.pending == CountIf(ReportCases(results), Waits)
    ensures run.counts.total == |ReportCases(results)| && run.duration == SumTimes(run.specs)
  {
    var specs: seq<Spec> := [];
    for i := 0 to |results|
      invariant specs == MapSpecs(results[..i], SpecOf)
    {
      var spec := ParseResult(results[i]);
      MapNext(results, SpecOf, i);
      specs := specs + [spec];
    }
    assert results[..|results|] == results;
    SpecsGather(results, SpecOf, FileTests);
    run := Run(SumCounts(specs), SumTimes(specs), specs);
    RunConserves(run, multiset(ReportTests(results)));
    ReportTold(results);
    FlagsCounted(AllTests(run.specs), ReportCases(results), run.counts);
  }
}
