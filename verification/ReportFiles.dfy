// Which reports keep their counters when their specs are stored, one row for each file: what the run says
// of itself against what recalculating it from its spec rows gives.
module ReportFiles {
  import opened Text
  import opened Normalized
  import opened RunSpecs
  import Playwright
  import JUnit
  import Mochawesome
  import WebdriverIO
  import Jest

  /** Recalculating the stored specs of a run gives the counters the run has. */
  predicate Reproduced(specs: seq<Spec>) { SumCounts(Stored([], specs)) == SumCounts(specs) }

  /** No item with tests is followed by one of the same file. */
  predicate FilesOnce<T>(items: seq<T>, f: T -> Spec) {
    forall i, j :: 0 <= i < j < |items| && f(items[i]).filePath == f(items[j]).filePath ==> f(items[i]).tests == []
  }

  lemma ReproducedIff<T>(items: seq<T>, f: T -> Spec, specs: seq<Spec>)
    requires specs == MapSpecs(items, f) && SpecsTally(specs)
    ensures Reproduced(specs) <==> FilesOnce(items, f)
  {
    StoreReproducesIff(specs);
    OverwrittenEmpty(specs);
    SameFiles(items, f, specs);
  }

  lemma SameFiles<T>(items: seq<T>, f: T -> Spec, specs: seq<Spec>)
    requires specs == MapSpecs(items, f)
    ensures FilesOnce(items, f) <==>
            forall i, j :: 0 <= i < j < |specs| && specs[i].filePath == specs[j].filePath ==> specs[i].tests == []
  {
    if FilesOnce(items, f) {
      forall i, j | 0 <= i < j < |specs| && specs[i].filePath == specs[j].filePath ensures specs[i].tests == [] {
        assert specs[i] == f(items[i]) && specs[j] == f(items[j]);
      }
    } else {
      var i, j :| 0 <= i < j < |items| && f(items[i]).filePath == f(items[j]).filePath && f(items[i]).tests != [];
      assert specs[i] == f(items[i]) && specs[j] == f(items[j]);
    }
  }

  // ---------------------------------------------------------------- the five reporters

  /** Playwright groups its tests by file, so its runs always keep their counters. */
  lemma PlaywrightReproduced(suites: seq<Playwright.Suite>, specs: seq<Spec>)
    requires var items := Playwright.FlattenAll(suites); specs == Playwright.SpecsOf(items, |Playwright.Files(items)|)
    ensures Reproduced(specs) && OnePerFile(specs)
  {
    Playwright.FilesDistinct(Playwright.FlattenAll(suites));
    assert OnePerFile(specs);
    StoreReproducesIff(specs);
  }

  /** A JUnit run does if and only if no suite with test cases of its own is followed by one with the same file. */
  lemma JUnitReproducedIff(suites: seq<JUnit.Suite>, specs: seq<Spec>)
    requires specs == MapSpecs(JUnit.Flat(suites), JUnit.SpecOf)
    ensures Reproduced(specs) <==>
            forall i, j :: 0 <= i < j < |JUnit.Flat(suites)| && JUnit.FileOf(JUnit.Flat(suites)[i]) == JUnit.FileOf(JUnit.Flat(suites)[j])
              ==> JUnit.Flat(suites)[i].cases == []
  {
    var flat := JUnit.Flat(suites);
    JUnit.SpecFacts(flat);
    ReproducedIff(flat, JUnit.SpecOf, specs);
    forall i | 0 <= i < |flat|
      ensures JUnit.SpecOf(flat[i]).filePath == JUnit.FileOf(flat[i]) && (JUnit.SpecOf(flat[i]).tests == [] <==> flat[i].cases == [])
    {
    }
  }

  /** A Mochawesome run does if and only if no result with tests is followed by one of the same file. */
  lemma MochawesomeReproducedIff(results: seq<Mochawesome.ResultFile>, specs: seq<Spec>)
    requires specs == MapSpecs(results, Mochawesome.SpecOf)
    ensures Reproduced(specs) <==>
            forall i, j :: 0 <= i < j < |results| && results[i].file == results[j].file ==> Mochawesome.FileTests(results[i]) == []
  {
    SpecsGather(results, Mochawesome.SpecOf, Mochawesome.FileTests);
    ReproducedIff(results, Mochawesome.SpecOf, specs);
  }

  /** A WebdriverIO run does if and only if no suite with tests is followed by one of the same spec file. */
  lemma WebdriverIOReproducedIff(report: WebdriverIO.Report, specs: seq<Spec>)
    requires specs == MapSpecs(WebdriverIO.Chosen(report), WebdriverIO.FiledSpec)
    ensures var filed := WebdriverIO.Chosen(report);
            Reproduced(specs) <==>
            forall i, j :: 0 <= i < j < |filed| && filed[i].filePath == filed[j].filePath ==> WebdriverIO.FiledTests(filed[i]) == []
  {
    var filed := WebdriverIO.Chosen(report);
    SpecsGather(filed, WebdriverIO.FiledSpec, WebdriverIO.FiledTests);
    ReproducedIff(filed, WebdriverIO.FiledSpec, specs);
  }

  /** A Jest run does if and only if no file with results, or that could not run, is followed by one shown the same. */
  lemma JestReproducedIff(suites: seq<Jest.Suite>, specs: seq<Spec>)
    requires specs == MapSpecs(suites, Jest.SpecOf)
    ensures Reproduced(specs) <==>
            forall i, j :: 0 <= i < j < |suites| && suites[i].shownPath == suites[j].shownPath ==> Jest.SuiteTests(suites[i]) == []
  {
    SpecsGather(suites, Jest.SpecOf, Jest.SuiteTests);
    ReproducedIff(suites, Jest.SpecOf, specs);
  }

  // ---------------------------------------------------------------- two suites in one spec file

  /** One spec file with two suites, the first of them with a test: the run says more than its spec rows hold. */
  lemma TwoSuitesInOneFile(first: WebdriverIO.Suite, second: WebdriverIO.Suite, file: string, specs: seq<Spec>)
    requires first.tests != [] && file != ""
    requires var report := WebdriverIO.Report([WebdriverIO.SpecResult(file, "", [first, second])], []);
             specs == MapSpecs(WebdriverIO.Chosen(report), WebdriverIO.FiledSpec)
    ensures !Reproduced(specs)
  {
    var result := WebdriverIO.SpecResult(file, "", [first, second]);
    var report := WebdriverIO.Report([result], []);
    var filed := WebdriverIO.Chosen(report);
    assert [result][..0] == [] && WebdriverIO.FiledSpecs([]) == [];
    assert filed == [] + WebdriverIO.FileAll([first, second], file);
    assert filed[0] == WebdriverIO.Filed(first, file) && filed[1].filePath == file;
    WebdriverIOReproducedIff(report, specs);
    assert WebdriverIO.FiledTests(filed[0]) != [];
  }
}
