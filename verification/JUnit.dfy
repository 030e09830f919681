// JUnit XML reports, already parsed: nested test suites flattened depth first, one spec each.
module JUnit {
  import opened Text
  import opened Normalized

  /** A test case; the elements that decide its status are present or not. */
  datatype Case = Case(name: Option<string>, classname: Option<string>, time: Reading,
                       skipped: bool, failure: bool, error: bool)

  datatype Suite = Suite(name: Option<string>, file: Option<string>, cases: seq<Case>, suites: seq<Suite>)

  function Or(s: Option<string>, otherwise: string): string { if s.Some? then s.value else otherwise }

  /** Seconds as whole milliseconds, rounded half up; nothing for what is not a positive number. */
  function ParseSeconds(time: Reading): (ms: nat)
    ensures time.Finite? && time.value > 0.0 ==> ms as real - 0.5 <= time.value * 1000.0 < ms as real + 0.5
    ensures time.NotFinite? || time.value <= 0.0 ==> ms == 0
  {
    if time.Finite? && time.value > 0.0 then (time.value * 1000.0 + 0.5).Floor else 0
  }

  /** Skipped wins over failure, and failure over error. */
  function StatusOf(tc: Case): (s: Status)
    ensures s != Pending
  {
    if tc.skipped then Skipped else if tc.failure || tc.error then Failed else Passed
  }

  function TestOf(tc: Case, suiteName: string): Test {
    var title := Or(tc.name, "Unknown test");
    Test(title, Or(tc.classname, suiteName) + " > " + title, StatusOf(tc), ParseSeconds(tc.time) as real)
  }

  method ParseTestCase(tc: Case, suiteName: string) returns (test: Test)
    ensures test == TestOf(tc, suiteName)
    ensures test.status.Skipped? <==> tc.skipped
    ensures test.status.Failed? <==> !tc.skipped && (tc.failure || tc.error)
    ensures test.status.Passed? <==> !tc.skipped && !tc.failure && !tc.error
    ensures tc.time.Finite? && tc.time.value > 0.0 ==> test.duration - 0.5 <= tc.time.value * 1000.0 < test.duration + 0.5
    ensures tc.time.NotFinite? || tc.time.value <= 0.0 ==> test.duration == 0.0
  {
    var title := Or(tc.name, "Unknown test");
    var classname := Or(tc.classname, suiteName);
    var status := Passed;
    if tc.skipped { status := Skipped; }
    else if tc.failure { status := Failed; }
    else if tc.error { status := Failed; }
    test := Test(title, classname + " > " + title, status, ParseSeconds(tc.time) as real);
  }

  // ---------------------------------------------------------------- the tree of suites

  function SuiteName(suite: Suite): string { Or(suite.name, "Unknown suite") }

  function CaseTests(cases: seq<Case>, suiteName: string): (r: seq<Test>)
    ensures |r| == |cases| && forall i :: 0 <= i < |r| ==> r[i].status != Pending
  {
    if cases == [] then [] else CaseTests(cases[..|cases| - 1], suiteName) + [TestOf(cases[|cases| - 1], suiteName)]
  }

  /** Every test case of the tree: each suite's own cases, then its nested suites'. */
  function TreeTests(suites: seq<Suite>): seq<Test>
    decreases suites
  {
    if suites == [] then []
    else
      var last := suites[|suites| - 1];
      TreeTests(suites[..|suites| - 1]) + (CaseTests(last.cases, SuiteName(last)) + TreeTests(last.suites))
  }

  /** The suites of the tree, parents before children. */
  function Flat(suites: seq<Suite>): seq<Suite>
    decreases suites
  {
    if suites == [] then []
    else
      var last := suites[|suites| - 1];
      Flat(suites[..|suites| - 1]) + ([last] + Flat(last.suites))
  }

  method FlattenSuites(suites: seq<Suite>) returns (out: seq<Suite>)
    ensures out == Flat(suites)
    decreases suites
  {
    out := [];
    for i := 0 to |suites|
      invariant out == Flat(suites[..i])
    {
      var s := suites[i];
      assert suites[..i + 1][..i] == suites[..i];
      out := out + [s];
      var nested: seq<Suite> := [];
      if |s.suites| > 0 { nested := FlattenSuites(s.suites); }
      FlatNext(Flat(suites[..i]), s, nested);
      out := out + nested;
    }
    assert suites[..|suites|] == suites;
  }

  lemma FlatNext(before: seq<Suite>, s: Suite, nested: seq<Suite>)
    ensures before + [s] + nested == before + ([s] + nested)
  {
  }

  // ---------------------------------------------------------------- specs and the run

  function FileOf(suite: Suite): string { Or(suite.file, SuiteName(suite)) }

  function SpecOf(suite: Suite): Spec {
    var tests := CaseTests(suite.cases, SuiteName(suite));
    Spec(FileOf(suite), SuiteName(suite), Tally(tests), SumDurations(tests), tests)
  }

  method ParseSuite(suite: Suite) returns (spec: Spec)
    ensures spec == SpecOf(suite)
    ensures spec.title == (if suite.name.Some? then suite.name.value else "Unknown suite")
    ensures spec.filePath == (if suite.file.Some? then suite.file.value else spec.title)
    ensures spec.duration == SumDurations(spec.tests)
  {
    var tests: seq<Test> := [];
    for i := 0 to |suite.cases|
      invariant tests == CaseTests(suite.cases[..i], SuiteName(suite))
    {
      assert suite.cases[..i + 1][..i] == suite.cases[..i];
      var test := ParseTestCase(suite.cases[i], SuiteName(suite));
      tests := tests + [test];
    }
    assert suite.cases[..|suite.cases|] == suite.cases;
    spec := Spec(Or(suite.file, SuiteName(suite)), SuiteName(suite), Tally(tests), SumDurations(tests), tests);
  }

  /** Flattening loses no test case, repeats none, and keeps their order. */
  lemma {:induction false} FlatKeepsTests(suites: seq<Suite>)
    ensures MapTests(Flat(suites), SpecOf) == TreeTests(suites)
    decreases suites
  {
    if suites != [] {
      var front, last := suites[..|suites| - 1], suites[|suites| - 1];
      FlatKeepsTests(front);
      FlatKeepsTests(last.suites);
      MapConcat(Flat(front), [last] + Flat(last.suites), SpecOf);
      MapConcat([last], Flat(last.suites), SpecOf);
      MapOne(last, SpecOf);
    }
  }

  lemma SpecFacts(suites: seq<Suite>)
    ensures SpecsTally(MapSpecs(suites, SpecOf)) && SumCounts(MapSpecs(suites, SpecOf)).pending == 0
  {
    forall i | 0 <= i < |suites| ensures SpecOf(suites[i]).counts.pending == 0 {
      CountZero(CaseTests(suites[i].cases, SuiteName(suites[i])), Pending);
    }
    MapNonePending(suites, SpecOf);
  }

  method ParseSuites(flat: seq<Suite>) returns (specs: seq<Spec>)
    ensures specs == MapSpecs(flat, SpecOf)
  {
    specs := [];
    for i := 0 to |flat|
      invariant specs == MapSpecs(flat[..i], SpecOf)
    {
      var spec := ParseSuite(flat[i]);
      MapNext(flat, SpecOf, i);
      specs := specs + [spec];
    }
    assert flat[..|flat|] == flat;
  }

  // ---------------------------------------------------------------- what the report says of each test

  /** A case with the name of the suite it is in. */
  datatype Placed = Placed(suite: string, said: Case)

  /** The cases of the suites: each suite's own, then those of the suites in it. */
  function PlacedIn(suites: seq<Suite>): seq<Placed>
    decreases suites
  {
    if suites == [] then []
    else
      var last := suites[|suites| - 1];
      PlacedIn(suites[..|suites| - 1]) + (PlacedCases(last.cases, SuiteName(last)) + PlacedIn(last.suites))
  }

  function PlacedCases(cases: seq<Case>, suite: string): seq<Placed> {
    seq(|cases|, i requires 0 <= i < |cases| => Placed(suite, cases[i]))
  }

  predicate Passes(placed: Placed) { !placed.said.skipped && !placed.said.failure && !placed.said.error }

  predicate Fails(placed: Placed) { !placed.said.skipped && (placed.said.failure || placed.said.error) }

  predicate Skips(placed: Placed) { placed.said.skipped }

  /** A test is what the report says: its elements decide the status, and it is named after its class, or else its
      suite, with stand-ins for names that are missing. */
  predicate Tells(placed: Placed, test: Test) {
    && (test.status.Passed? <==> Passes(placed)) && (test.status.Failed? <==> Fails(placed))
    && (test.status.Skipped? <==> Skips(placed))
    && (placed.said.name.Some? ==> test.title == placed.said.name.value)
    && (placed.said.name.None? ==> test.title == "Unknown test")
    && (placed.said.classname.Some? ==> test.fullTitle == placed.said.classname.value + " > " + test.title)
    && (placed.said.classname.None? ==> test.fullTitle == placed.suite + " > " + test.title)
  }

  lemma SuiteNamed(suite: Suite)
    ensures suite.name.Some? ==> SuiteName(suite) == suite.name.value
    ensures suite.name.None? ==> SuiteName(suite) == "Unknown suite"
    ensures suite.file.Some? ==> FileOf(suite) == suite.file.value
    ensures suite.file.None? ==> FileOf(suite) == SuiteName(suite)
  {
  }

  lemma {:induction false} CasesTold(cases: seq<Case>, suite: string)
    ensures Told(CaseTests(cases, suite), PlacedCases(cases, suite), Tells)
  {
    if cases != [] {
      var front, last := cases[..|cases| - 1], cases[|cases| - 1];
      CasesTold(front, suite);
      ToldAppend(CaseTests(front, suite), PlacedCases(front, suite), [TestOf(last, suite)], [Placed(suite, last)], Tells);
      assert PlacedCases(cases, suite) == PlacedCases(front, suite) + [Placed(suite, last)];
    }
  }

  lemma {:induction false} TreeTold(suites: seq<Suite>)
    ensures Told(TreeTests(suites), PlacedIn(suites), Tells)
    decreases suites
  {
    if suites != [] {
      var front, last := suites[..|suites| - 1], suites[|suites| - 1];
      TreeTold(front);
      CasesTold(last.cases, SuiteName(last));
      TreeTold(last.suites);
      var own, below := CaseTests(last.cases, SuiteName(last)), TreeTests(last.suites);
      ToldAppend(own, PlacedCases(last.cases, SuiteName(last)), below, PlacedIn(last.suites), Tells);
      ToldAppend(TreeTests(front), PlacedIn(front), own + below,
                 PlacedCases(last.cases, SuiteName(last)) + PlacedIn(last.suites), Tells);
    }
  }

  /** The counters are those of the report's own elements. */
  lemma ElementsCounted(tests: seq<Test>, cases: seq<Placed>, counts: Counts)
    requires Told(tests, cases, Tells) && counts == Tally(tests)
    ensures counts.total == |cases| && counts.passed == CountIf(cases, Passes) && counts.failed == CountIf(cases, Fails)
    ensures counts.skipped == CountIf(cases, Skips)
  {
    ToldCount(tests, cases, Tells, Passed, Passes);
    ToldCount(tests, cases, Tells, Failed, Fails);
    ToldCount(tests, cases, Tells, Skipped, Skips);
  }

  // ---------------------------------------------------------------- the run

  /** The pending counter is written as 0, which is exact: no test case is pending. */
  method ParseJUnit(suites: seq<Suite>) returns (run: Run)
    ensures run.specs == MapSpecs(Flat(suites), SpecOf)
    ensures AllTests(run.specs) == TreeTests(suites) && Told(AllTests(run.specs), PlacedIn(suites), Tells)
    ensures Conserves(run, multiset(TreeTests(suites)))
    ensures run.counts.passed == CountIf(PlacedIn(suites), Passes) && run.counts.failed == CountIf(PlacedIn(suites), Fails)
    ensures run.counts.skipped == CountIf(PlacedIn(suites), Skips) && run.counts.pending == 0
    ensures run.counts.total == |PlacedIn(suites)| && run.duration == SumTimes(run.specs)
  {
    var flat := FlattenSuites(suites);
    var specs := ParseSuites(flat);
    MapKeepsTests(flat, SpecOf);
    FlatKeepsTests(suites);
    SpecFacts(flat);
    run := Run(SumCounts(specs).(pending := 0), SumTimes(specs), specs);
    RunConserves(run, multiset(TreeTests(suites)));
    TreeTold(suites);
    ElementsCounted(AllTests(run.specs), PlacedIn(suites), run.counts);
  }
}
