// Jest reports: one spec per test file, with a failed stand-in for a file that could not run.
module Jest {
  import opened Text
  import opened Normalized

  datatype Case = Case(title: string, fullName: string, ancestors: seq<string>, status: string, duration: Reading)

  /** A test file: its path, and the path without the workspace root that it is shown under. */
  datatype Suite = Suite(testFilePath: string, shownPath: string, results: seq<Case>, execError: bool, runtime: Option<Reading>)

  function MapStatus(status: string): Status {
    if status == "passed" then Passed
    else if status == "failed" then Failed
    else if status == "pending" || status == "todo" || status == "disabled" then Pending
    else Skipped
  }

  function TestOf(test: Case): Test {
    Test(test.title, if test.fullName != "" then test.fullName else Join(test.ancestors + [test.title], " > "),
         MapStatus(test.status), SafeDuration(test.duration))
  }

  function CaseTests(cases: seq<Case>): (r: seq<Test>)
    ensures |r| == |cases|
  {
    seq(|cases|, i requires 0 <= i < |cases| => TestOf(cases[i]))
  }

  const EXECUTION_ERROR := "Suite execution error"

  /** The results of a file, or one failed test when it has none because it could not run. */
  function SuiteTests(suite: Suite): seq<Test> {
    if suite.execError && suite.results == []
    then [Test(EXECUTION_ERROR, suite.testFilePath + " > " + EXECUTION_ERROR, Failed, 0.0)]
    else CaseTests(suite.results)
  }

  /** A spec's duration is the runtime the report gives, if it gives one. */
  function SpecOf(suite: Suite): Spec {
    var tests, path := SuiteTests(suite), suite.shownPath;
    Spec(path, BaseName(path), Tally(tests),
         SafeDuration(if suite.runtime.Some? then suite.runtime.value else Finite(SumDurations(tests))), tests)
  }

  method ParseSuite(suite: Suite) returns (spec: Spec)
    ensures spec == SpecOf(suite)
    ensures spec.filePath == suite.shownPath && spec.title == BaseName(suite.shownPath)
    ensures suite.runtime.Some? ==> Timed(suite.runtime.value, spec.duration)
    ensures suite.runtime.None? ==> spec.duration == SumDurations(spec.tests)
  {
    var tests := CaseTests(suite.results);
    if suite.execError && |tests| == 0 {
      tests := tests + [Test(EXECUTION_ERROR, suite.testFilePath + " > " + EXECUTION_ERROR, Failed, 0.0)];
    }
    assert tests == SuiteTests(suite);
    var path := suite.shownPath;
    DurationsNonNegative(tests);
    spec := Spec(path, BaseName(path), Tally(tests),
                 SafeDuration(if suite.runtime.Some? then suite.runtime.value else Finite(SumDurations(tests))), tests);
  }

  function ReportTests(suites: seq<Suite>): seq<Test> {
    Gather(suites, SuiteTests)
  }

  // ---------------------------------------------------------------- what the report says of each test

  /** A case of the report, or a file that could not run. */
  datatype Source = Ran(ran: Case) | NotRun(path: string)

  /** What the report holds, file by file. */
  function Sources(suites: seq<Suite>): seq<Source> {
    if suites == [] then []
    else
      var last := suites[|suites| - 1];
      Sources(suites[..|suites| - 1])
      + if last.execError && |last.results| == 0 then [NotRun(last.testFilePath)]
        else seq(|last.results|, i requires 0 <= i < |last.results| => Ran(last.results[i]))
  }

  predicate Passes(source: Source) { source.Ran? && source.ran.status == "passed" }

  predicate Fails(source: Source) { source.NotRun? || source.ran.status == "failed" }

  predicate Waits(source: Source) { source.Ran? && source.ran.status in {"pending", "todo", "disabled"} }

  predicate Skips(source: Source) { source.Ran? && source.ran.status !in {"passed", "failed", "pending", "todo", "disabled"} }

  /** A test is what the report says: its words decide the status, and a file that could not run failed. */
  predicate Tells(source: Source, test: Test) {
    && (test.status.Passed? <==> Passes(source)) && (test.status.Failed? <==> Fails(source))
    && (test.status.Pending? <==> Waits(source)) && (test.status.Skipped? <==> Skips(source))
    && match source
       case NotRun(path) =>
         test.title == "Suite execution error" && test.fullTitle == path + " > Suite execution error" && test.duration == 0.0
       case Ran(ran) =>
         && test.title == ran.title && Timed(ran.duration, test.duration)
         && (ran.fullName != "" ==> test.fullTitle == ran.fullName)
         && (ran.fullName == "" ==> test.fullTitle == Join(ran.ancestors + [ran.title], " > "))
  }

  lemma SuiteTold(suite: Suite, tests: seq<Test>, sources: seq<Source>)
    requires tests == SuiteTests(suite)
    requires sources == if suite.execError && |suite.results| == 0 then [NotRun(suite.testFilePath)]
                        else seq(|suite.results|, i requires 0 <= i < |suite.results| => Ran(suite.results[i]))
    ensures Told(tests, sources, Tells)
  {
    if suite.execError && |suite.results| == 0 {
      var test := tests[0];
      assert test.fullTitle == suite.testFilePath + " > Suite execution error" by {
        assert suite.testFilePath + " > " + EXECUTION_ERROR == suite.testFilePath + (" > " + EXECUTION_ERROR);
        assert " > " + EXECUTION_ERROR == " > Suite execution error";
      }
    }
  }

  lemma {:induction false} ReportTold(suites: seq<Suite>)
    ensures Told(ReportTests(suites), Sources(suites), Tells)
  {
    if suites != [] {
      var front, last := suites[..|suites| - 1], suites[|suites| - 1];
      ReportTold(front);
      var sources := if last.execError && |last.results| == 0 then [NotRun(last.testFilePath)]
                     else seq(|last.results|, i requires 0 <= i < |last.results| => Ran(last.results[i]));
      SuiteTold(last, SuiteTests(last), sources);
      ToldAppend(ReportTests(front), Sources(front), SuiteTests(last), sources, Tells);
      assert Sources(suites) == Sources(front) + sources;
    }
  }

  /** The counters are those of the report's own words. */
  lemma WordsCounted(suites: seq<Suite>, counts: Counts)
    requires counts == Tally(ReportTests(suites))
    ensures var sources := Sources(suites);
            && counts.total == |sources| && counts.passed == CountIf(sources, Passes) && counts.failed == CountIf(sources, Fails)
            && counts.skipped == CountIf(sources, Skips) && counts.pending == CountIf(sources, Waits)
  {
    var tests, sources := ReportTests(suites), Sources(suites);
    ReportTold(suites);
    ToldCount(tests, sources, Tells, Passed, Passes);
    ToldCount(tests, sources, Tells, Failed, Fails);
    ToldCount(tests, sources, Tells, Skipped, Skips);
    ToldCount(tests, sources, Tells, Pending, Waits);
  }

  // ---------------------------------------------------------------- the run

  /** The pending counter is taken from the tests, the others from the specs: they agree. */
  method ParseJest(suites: seq<Suite>) returns (run: Run)
    ensures run.specs == MapSpecs(suites, SpecOf)
    ensures AllTests(run.specs) == ReportTests(suites) && Told(AllTests(run.specs), Sources(suites), Tells)
    ensures Conserves(run, multiset(ReportTests(suites)))
    ensures run.counts.passed == CountIf(Sources(suites), Passes) && run.counts.failed == CountIf(Sources(suites), Fails)
    ensures run.counts.skipped == CountIf(Sources(suites), Skips) && run.counts.pending == CountIf(Sources(suites), Waits)
    ensures run.counts.total == |Sources(suites)| && run.duration == SumTimes(run.specs)
  {
    var specs: seq<Spec> := [];
    for i := 0 to |suites|
      invariant specs == MapSpecs(suites[..i], SpecOf)
    {
      var spec := ParseSuite(suites[i]);
      MapNext(suites, SpecOf, i);
      specs := specs + [spec];
    }
    assert suites[..|suites|] == suites;
    SpecsGather(suites, SpecOf, SuiteTests);
    SumIsTally(specs);
    run := Run(SumCounts(specs).(pending := CountStatus(AllTests(specs), Pending)), SumTimes(specs), specs);
    RunConserves(run, multiset(ReportTests(suites)));
    ReportTold(suites);
    WordsCounted(suites, run.counts);
  }

  /** A file that could not run never disappears: it counts as one failure. */
  lemma ExecutionErrorFails(suite: Suite)
    requires suite.execError && suite.results == []
    ensures SpecOf(suite).counts.total == 1 && SpecOf(suite).counts.failed == 1
  {
    var tests := SuiteTests(suite);
    assert tests[..|tests| - 1] == [];
    assert CountStatus([], Failed) == 0;
    assert CountStatus(tests, Failed) == CountStatus([], Failed) + 1;
  }
}
