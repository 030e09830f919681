// Playwright reports: tests collected from nested suites into groups by file, in the order files are met.
module Playwright {
  import opened Text
  import opened Normalized

  datatype Result = Result(status: string, duration: Reading)

  /** A test with its attempts; the last one counts. */
  datatype Case = Case(results: seq<Result>)

  datatype CaseSpec = CaseSpec(title: string, file: Option<string>, tests: seq<Case>)

  datatype Suite = Suite(title: string, file: Option<string>, specs: seq<CaseSpec>, suites: seq<Suite>)

  function MapStatus(status: string): (r: Status)
    ensures r != Pending
  {
    if status == "passed" then Passed
    else if status == "failed" || status == "timedOut" || status == "interrupted" then Failed
    else Skipped
  }

  /** A test with the file it is filed under. */
  datatype Filed = Filed(file: string, test: Test)

  /** The titles that are not empty. */
  function NonEmpty(titles: seq<string>): seq<string> {
    if titles == [] then []
    else NonEmpty(titles[..|titles| - 1]) + (if titles[|titles| - 1] == "" then [] else [titles[|titles| - 1]])
  }

  function TitlePath(suite: Suite, parentPath: seq<string>): seq<string> {
    if suite.title != "" then parentPath + [suite.title] else parentPath
  }

  function FileOf(suite: Suite, spec: CaseSpec, path: seq<string>): string {
    if spec.file.Some? then spec.file.value
    else if suite.file.Some? then suite.file.value else Join(path, " > ")
  }

  function TestOf(spec: CaseSpec, last: Result, path: seq<string>): Test {
    Test(spec.title, Join(NonEmpty(path + [spec.title]), " > "), MapStatus(last.status), SafeDuration(last.duration))
  }

  /** The tests of one spec that have a result. */
  function FiledCases(suite: Suite, spec: CaseSpec, path: seq<string>, n: nat): (r: seq<Filed>)
    requires n <= |spec.tests|
    ensures forall i :: 0 <= i < |r| ==> r[i].test.status != Pending
  {
    if n == 0 then []
    else
      var results := spec.tests[n - 1].results;
      FiledCases(suite, spec, path, n - 1)
      + (if results == [] then []
         else [Filed(FileOf(suite, spec, path), TestOf(spec, results[|results| - 1], path))])
  }

  function FiledSpecs(suite: Suite, path: seq<string>, n: nat): (r: seq<Filed>)
    requires n <= |suite.specs|
    ensures forall i :: 0 <= i < |r| ==> r[i].test.status != Pending
  {
    if n == 0 then []
    else FiledSpecs(suite, path, n - 1) + FiledCases(suite, suite.specs[n - 1], path, |suite.specs[n - 1].tests|)
  }

  /** Every test with a result, depth first: a suite's own, then its children's. */
  function Flatten(suite: Suite, parentPath: seq<string>): (r: seq<Filed>)
    ensures forall i :: 0 <= i < |r| ==> r[i].test.status != Pending
    decreases suite, 1, 0
  {
    var path := TitlePath(suite, parentPath);
    FiledSpecs(suite, path, |suite.specs|) + FlattenChildren(suite, path, |suite.suites|)
  }

  function FlattenChildren(suite: Suite, path: seq<string>, n: nat): (r: seq<Filed>)
    requires n <= |suite.suites|
    ensures forall i :: 0 <= i < |r| ==> r[i].test.status != Pending
    decreases suite, 0, n
  {
    if n == 0 then []
    else FlattenChildren(suite, path, n - 1) + Flatten(suite.suites[n - 1], path)
  }

  function FlattenAll(suites: seq<Suite>): (r: seq<Filed>)
    ensures forall i :: 0 <= i < |r| ==> r[i].test.status != Pending
  {
    if suites == [] then [] else FlattenAll(suites[..|suites| - 1]) + Flatten(suites[|suites| - 1], [])
  }

  // ---------------------------------------------------------------- groups

  /** A Map of lists: the files in insertion order, and the tests of each. */
  datatype Groups = Groups(files: seq<string>, tests: map<string, seq<Test>>)

  const EMPTY := Groups([], map[])

  function Get(g: Groups, file: string): seq<Test> { if file in g.tests then g.tests[file] else [] }

  /** Map.set: a known file keeps its place. */
  function Set(g: Groups, file: string, tests: seq<Test>): Groups {
    Groups(if file in g.tests then g.files else g.files + [file], g.tests[file := tests])
  }

  /** The files of a list of tests, each once, in the order they first occur. */
  function Files(items: seq<Filed>): (r: seq<string>)
    ensures forall f :: f in r <==> exists i :: 0 <= i < |items| && items[i].file == f
  {
    if items == [] then []
    else
      var front, last := items[..|items| - 1], items[|items| - 1];
      assert items == front + [last];
      var files := Files(front);
      assert forall i :: 0 <= i < |front| ==> front[i] == items[i];
      AddFile(files, last.file)
  }

  /** These are the places of the tests filed under f, in order. */
  predicate Under(tests: seq<Test>, items: seq<Filed>, f: string, from: seq<nat>) {
    && |from| == |tests|
    && (forall k :: 0 <= k < |from| ==> from[k] < |items| && items[from[k]] == Filed(f, tests[k]))
    && (forall k, l :: 0 <= k < l < |from| ==> from[k] < from[l])
    && forall i :: 0 <= i < |items| && items[i].file == f ==> i in from
  }

  /** The tests of a file are all that are filed under it, each once, in the order they were met. */
  lemma {:induction false} TestsInOrder(items: seq<Filed>, f: string) returns (from: seq<nat>)
    ensures Under(TestsOf(items, f), items, f, from)
  {
    from := [];
    if items != [] {
      var front := items[..|items| - 1];
      from := TestsInOrder(front, f);
      UnderNext(TestsOf(front, f), front, f, from, items[|front|], items);
      if items[|front|].file == f { from := from + [|front|]; }
    }
  }

  lemma UnderNext(tests: seq<Test>, items: seq<Filed>, f: string, from: seq<nat>, item: Filed, more: seq<Filed>)
    requires Under(tests, items, f, from) && |more| == |items| + 1 && more[..|items|] == items && more[|items|] == item
    ensures item.file == f ==> Under(tests + [item.test], more, f, from + [|items|])
    ensures item.file != f ==> Under(tests, more, f, from)
  {
    assert forall i :: 0 <= i < |items| ==> more[i] == items[i];
    if item.file == f {
      var next := from + [|items|];
      forall i | 0 <= i < |more| && more[i].file == f ensures i in next {
        if i < |items| { assert i in from; } else { assert next[|from|] == i; }
      }
    }
  }

  /** The place where a file is first met. */
  predicate FirstAt(items: seq<Filed>, f: string, i: nat) {
    i < |items| && items[i].file == f && forall j :: 0 <= j < i ==> items[j].file != f
  }

  /** Each file is listed once, in the order in which the files are first met. */
  lemma {:induction false} FilesInOrder(items: seq<Filed>) returns (from: seq<nat>)
    ensures |from| == |Files(items)| && (forall k :: 0 <= k < |from| ==> FirstAt(items, Files(items)[k], from[k]))
    ensures forall k, l :: 0 <= k < l < |from| ==> from[k] < from[l]
  {
    from := [];
    if items != [] {
      var front, last := items[..|items| - 1], items[|items| - 1];
      from := FilesInOrder(front);
      if last.file !in Files(front) {
        forall j | 0 <= j < |front| ensures items[j].file != last.file { assert front[j].file in Files(front); }
        from := from + [|front|];
      }
    }
  }

  function AddFile(files: seq<string>, f: string): seq<string> {
    if f in files then files else files + [f]
  }

  /** The tests filed under a file, in order. */
  function TestsOf(items: seq<Filed>, f: string): seq<Test> {
    if items == [] then []
    else
      TestsOf(items[..|items| - 1], f)
      + (if items[|items| - 1].file == f then [items[|items| - 1].test] else [])
  }

  /** Grouping by file. */
  function Grouped(items: seq<Filed>): Groups {
    Groups(Files(items), map f | f in Files(items) :: TestsOf(items, f))
  }

  lemma {:induction false} TestsOfNone(items: seq<Filed>, f: string)
    ensures TestsOf(items, f) == [] <==> f !in Files(items)
  {
    if items != [] { TestsOfNone(items[..|items| - 1], f); }
  }

  lemma GetGrouped(items: seq<Filed>, f: string)
    ensures Get(Grouped(items), f) == TestsOf(items, f)
  {
    TestsOfNone(items, f);
  }

  lemma TestsOfAppend(items: seq<Filed>, item: Filed, f: string)
    ensures TestsOf(items + [item], f) == TestsOf(items, f) + (if item.file == f then [item.test] else [])
    ensures Files(items + [item]) == AddFile(Files(items), item.file)
  {
    assert (items + [item])[..|items|] == items;
  }

  /** Filing one more test is grouping a list that ends with it. */
  lemma PutOne(items: seq<Filed>, item: Filed, g: Groups)
    requires g == Grouped(items)
    ensures Set(g, item.file, Get(g, item.file) + [item.test]) == Grouped(items + [item])
  {
    GetGrouped(items, item.file);
    var next := Set(g, item.file, Get(g, item.file) + [item.test]);
    var more := Grouped(items + [item]);
    TestsOfAppend(items, item, item.file);
    forall f | f in next.tests ensures f in more.tests && next.tests[f] == more.tests[f] {
      TestsOfAppend(items, item, f);
    }
    assert next.tests == more.tests;
  }

  lemma {:induction false} TestsOfConcat(a: seq<Filed>, b: seq<Filed>, f: string)
    ensures TestsOf(a + b, f) == TestsOf(a, f) + TestsOf(b, f)
  {
    if b == [] {
      assert a + b == a;
    } else {
      assert (a + b)[..|a + b| - 1] == a + b[..|b| - 1];
      TestsOfConcat(a, b[..|b| - 1], f);
    }
  }

  function AddFiles(files: seq<string>, more: seq<string>): (r: seq<string>)
    ensures forall f :: f in r <==> f in files || f in more
  {
    if more == [] then files
    else
      assert more == more[..|more| - 1] + [more[|more| - 1]];
      AddFile(AddFiles(files, more[..|more| - 1]), more[|more| - 1])
  }

  lemma {:induction false} FilesConcat(a: seq<Filed>, b: seq<Filed>)
    ensures Files(a + b) == AddFiles(Files(a), Files(b))
  {
    if b == [] {
      assert a + b == a;
    } else {
      var front, last := b[..|b| - 1], b[|b| - 1];
      assert (a + b)[..|a + b| - 1] == a + front;
      FilesConcat(a, front);
      if last.file !in Files(front) {
        assert (Files(front) + [last.file])[..|Files(front)|] == Files(front);
      }
    }
  }

  /** The groups of a after the first n groups of b have been merged in. */
  function Merged(a: seq<Filed>, b: seq<Filed>, n: nat): Groups
    requires n <= |Files(b)|
  {
    var files := AddFiles(Files(a), Files(b)[..n]);
    Groups(files, map f | f in files :: MergedTests(a, b, n, f))
  }

  function MergedTests(a: seq<Filed>, b: seq<Filed>, n: nat, f: string): seq<Test>
    requires n <= |Files(b)|
  {
    TestsOf(a, f) + (if f in Files(b)[..n] then TestsOf(b, f) else [])
  }

  lemma {:induction false} FilesDistinct(items: seq<Filed>)
    ensures forall i, j :: 0 <= i < j < |Files(items)| ==> Files(items)[i] != Files(items)[j]
  {
    if items != [] { FilesDistinct(items[..|items| - 1]); }
  }

  lemma NextFile(b: seq<Filed>, n: nat)
    requires n < |Files(b)|
    ensures Files(b)[..n + 1] == Files(b)[..n] + [Files(b)[n]] && Files(b)[n] !in Files(b)[..n]
    ensures TestsOf(b, Files(b)[n]) != []
  {
    FilesDistinct(b);
    TestsOfNone(b, Files(b)[n]);
  }

  lemma MergeFiles(a: seq<Filed>, b: seq<Filed>, n: nat, key: string)
    requires n < |Files(b)| && key == Files(b)[n]
    ensures AddFiles(Files(a), Files(b)[..n + 1]) == AddFile(AddFiles(Files(a), Files(b)[..n]), key)
  {
    NextFile(b, n);
    assert Files(b)[..n + 1][..n] == Files(b)[..n];
  }

  lemma MergeTests(a: seq<Filed>, b: seq<Filed>, n: nat, key: string, f: string)
    requires n < |Files(b)| && key == Files(b)[n]
    ensures MergedTests(a, b, n + 1, f) == if f == key then MergedTests(a, b, n, f) + TestsOf(b, f) else MergedTests(a, b, n, f)
  {
    NextFile(b, n);
    assert f in Files(b)[..n + 1] <==> f in Files(b)[..n] || f == key;
    if f == key { assert TestsOf(a, f) + [] == TestsOf(a, f); }
  }

  lemma MergedGet(a: seq<Filed>, b: seq<Filed>, n: nat, key: string, g: Groups)
    requires n <= |Files(b)| && g == Merged(a, b, n)
    ensures Get(g, key) == MergedTests(a, b, n, key)
  {
    if key !in g.tests { TestsOfNone(a, key); }
  }

  /** Merging the next group of b, its tests behind what the file already has. */
  lemma MergeOne(a: seq<Filed>, b: seq<Filed>, n: nat, g: Groups, key: string, next: Groups)
    requires n < |Files(b)| && g == Merged(a, b, n) && key == Files(b)[n]
    requires next == Set(g, key, Get(g, key) + TestsOf(b, key))
    ensures TestsOf(b, key) != [] && next == Merged(a, b, n + 1)
  {
    NextFile(b, n);
    MergeFiles(a, b, n, key);
    MergedGet(a, b, n, key, g);
    var more := Merged(a, b, n + 1);
    MergedKeys(a, b, n, g);
    MergedKeys(a, b, n + 1, more);
    assert next.tests.Keys == more.tests.Keys;
    MergeOneTests(a, b, n, g, key, next.tests, more);
    SameMap(next.tests, more.tests);
  }

  lemma MergeOneTests(a: seq<Filed>, b: seq<Filed>, n: nat, g: Groups, key: string, next: map<string, seq<Test>>, more: Groups)
    requires n < |Files(b)| && g == Merged(a, b, n) && key == Files(b)[n] && more == Merged(a, b, n + 1)
    requires next == g.tests[key := MergedTests(a, b, n, key) + TestsOf(b, key)] && next.Keys == more.tests.Keys
    ensures forall f :: f in next.Keys ==> next[f] == more.tests[f]
  {
    MergedKeys(a, b, n, g);
    MergedKeys(a, b, n + 1, more);
    forall f | f in next.Keys ensures next[f] == more.tests[f] {
      MergeTests(a, b, n, key, f);
    }
  }

  lemma MergedKeys(a: seq<Filed>, b: seq<Filed>, n: nat, g: Groups)
    requires n <= |Files(b)| && g == Merged(a, b, n)
    ensures forall f :: f in g.tests.Keys <==> f in g.files
    ensures forall f :: f in g.tests.Keys ==> g.tests[f] == MergedTests(a, b, n, f)
  {
  }

  lemma SameMap(m: map<string, seq<Test>>, n: map<string, seq<Test>>)
    requires m.Keys == n.Keys && forall f :: f in m.Keys ==> m[f] == n[f]
    ensures m == n
  {
  }

  lemma MergeStarts(a: seq<Filed>, b: seq<Filed>)
    ensures Merged(a, b, 0) == Grouped(a)
  {
    assert Files(b)[..0] == [];
    forall f | f in Files(a) ensures MergedTests(a, b, 0, f) == TestsOf(a, f) {
      assert TestsOf(a, f) + [] == TestsOf(a, f);
    }
    assert Merged(a, b, 0).tests == Grouped(a).tests;
  }

  /** Merging every group is grouping the two lists one after the other. */
  lemma MergeEnds(a: seq<Filed>, b: seq<Filed>)
    ensures Merged(a, b, |Files(b)|) == Grouped(a + b)
  {
    var files := Files(b);
    assert files[..|files|] == files;
    FilesConcat(a, b);
    forall f | f in Files(a + b) ensures MergedTests(a, b, |files|, f) == TestsOf(a + b, f) {
      TestsOfConcat(a, b, f);
      TestsOfNone(b, f);
    }
    assert Merged(a, b, |files|).tests == Grouped(a + b).tests;
  }

  // ---------------------------------------------------------------- the collectors

  /** The next test of a spec: nothing if it never ran, else filed under its last result. */
  lemma NoCase(items: seq<Filed>, suite: Suite, spec: CaseSpec, path: seq<string>, n: nat)
    requires n < |spec.tests| && spec.tests[n].results == []
    ensures items + FiledCases(suite, spec, path, n + 1) == items + FiledCases(suite, spec, path, n)
  {
  }

  lemma NextCase(items: seq<Filed>, suite: Suite, spec: CaseSpec, path: seq<string>, n: nat, next: Filed, before: seq<Filed>)
    requires n < |spec.tests| && spec.tests[n].results != [] && before == items + FiledCases(suite, spec, path, n)
    requires var results := spec.tests[n].results;
             next == Filed(FileOf(suite, spec, path), TestOf(spec, results[|results| - 1], path))
    ensures items + FiledCases(suite, spec, path, n + 1) == before + [next]
  {
  }

  /** File one test. */
  method Put(before: Groups, file: string, test: Test, ghost items: seq<Filed>) returns (result: Groups)
    requires before == Grouped(items)
    ensures result == Grouped(items + [Filed(file, test)])
  {
    PutOne(items, Filed(file, test), before);
    result := Set(before, file, Get(before, file) + [test]);
  }

  method CollectSpec(suite: Suite, spec: CaseSpec, path: seq<string>, before: Groups, ghost items: seq<Filed>)
    returns (result: Groups)
    requires before == Grouped(items)
    ensures result == Grouped(items + FiledCases(suite, spec, path, |spec.tests|))
  {
    result := before;
    assert items + [] == items;
    for n := 0 to |spec.tests|
      invariant result == Grouped(items + FiledCases(suite, spec, path, n))
    {
      var results := spec.tests[n].results;
      if results == [] {
        NoCase(items, suite, spec, path, n);
      } else {
        var file, test := FileOf(suite, spec, path), TestOf(spec, results[|results| - 1], path);
        ghost var before := items + FiledCases(suite, spec, path, n);
        NextCase(items, suite, spec, path, n, Filed(file, test), before);
        result := Put(result, file, test, before);
      }
    }
  }

  /** Merge a child's groups. A group without tests would wipe what the file already has; there never is one. */
  method MergeChild(before: Groups, child: Groups, ghost a: seq<Filed>, ghost b: seq<Filed>) returns (result: Groups)
    requires before == Grouped(a) && child == Grouped(b)
    ensures result == Grouped(a + b)
  {
    result := before;
    MergeStarts(a, b);
    for n := 0 to |child.files|
      invariant result == Merged(a, b, n)
    {
      var key := child.files[n];
      var tests := child.tests[key];
      var existing := Get(result, key) + tests;
      MergeOne(a, b, n, result, key, Set(result, key, existing));
      result := Set(result, key, if |tests| > 0 then existing else []);
    }
    MergeEnds(a, b);
  }

  /** A suite's own tests. */
  method CollectOwn(suite: Suite, path: seq<string>) returns (result: Groups)
    ensures result == Grouped(FiledSpecs(suite, path, |suite.specs|))
  {
    result := EMPTY;
    assert EMPTY.tests == Grouped([]).tests;
    for n := 0 to |suite.specs|
      invariant result == Grouped(FiledSpecs(suite, path, n))
    {
      result := CollectSpec(suite, suite.specs[n], path, result, FiledSpecs(suite, path, n));
    }
  }

  /** A suite's own tests and those of its first n children. */
  function UpTo(suite: Suite, path: seq<string>, n: nat): seq<Filed>
    requires n <= |suite.suites|
    decreases suite, 0, n
  {
    FiledSpecs(suite, path, |suite.specs|) + FlattenChildren(suite, path, n)
  }

  lemma NoChildYet(suite: Suite, path: seq<string>)
    ensures UpTo(suite, path, 0) == FiledSpecs(suite, path, |suite.specs|)
  {
  }

  lemma NextChild(suite: Suite, path: seq<string>, n: nat)
    requires n < |suite.suites|
    ensures UpTo(suite, path, n + 1) == UpTo(suite, path, n) + Flatten(suite.suites[n], path)
  {
    Reassociate(FiledSpecs(suite, path, |suite.specs|), FlattenChildren(suite, path, n), Flatten(suite.suites[n], path));
  }

  /** One child's tests, merged in behind the others. */
  method CollectChild(suite: Suite, path: seq<string>, n: nat, before: Groups) returns (result: Groups)
    requires n < |suite.suites| && before == Grouped(UpTo(suite, path, n))
    ensures result == Grouped(UpTo(suite, path, n + 1))
    decreases suite, 0
  {
    var child := CollectFromSuite(suite.suites[n], path);
    NextChild(suite, path, n);
    result := MergeChild(before, child, UpTo(suite, path, n), Flatten(suite.suites[n], path));
  }

  /** A suite's own tests, then those of each child, merged in. */
  method CollectFromSuite(suite: Suite, parentPath: seq<string>) returns (result: Groups)
    ensures result == Grouped(Flatten(suite, parentPath))
    decreases suite, 1
  {
    var path := TitlePath(suite, parentPath);
    result := CollectOwn(suite, path);
    NoChildYet(suite, path);
    for n := 0 to |suite.suites|
      invariant result == Grouped(UpTo(suite, path, n))
    {
      result := CollectChild(suite, path, n, result);
    }
    FlattenIs(suite, parentPath, path);
  }

  lemma FlattenIs(suite: Suite, parentPath: seq<string>, path: seq<string>)
    requires path == TitlePath(suite, parentPath)
    ensures UpTo(suite, path, |suite.suites|) == Flatten(suite, parentPath)
  {
  }

  lemma Reassociate(a: seq<Filed>, b: seq<Filed>, c: seq<Filed>)
    ensures a + b + c == a + (b + c)
  {
  }

  // ---------------------------------------------------------------- the run

  /** The spec of a file: filed under it, named after its last part, with its tests and their time. */
  predicate SpecTells(spec: Spec, items: seq<Filed>, file: string) {
    && spec.filePath == file && spec.title == BaseName(file)
    && spec.tests == TestsOf(items, file) && spec.duration == SumDurations(spec.tests)
  }

  function SpecOf(file: string, tests: seq<Test>): Spec {
    Spec(file, BaseName(file), Tally(tests), SumDurations(tests), tests)
  }

  /** One spec per file, in the order the files are met. */
  function SpecsOf(items: seq<Filed>, n: nat): (r: seq<Spec>)
    requires n <= |Files(items)|
    ensures |r| == n && SpecsTally(r)
    ensures forall i :: 0 <= i < n ==> r[i] == SpecOf(Files(items)[i], TestsOf(items, Files(items)[i]))
  {
    if n == 0 then []
    else
      var file := Files(items)[n - 1];
      SpecsOf(items, n - 1) + [SpecOf(file, TestsOf(items, file))]
  }

  /** Group the tests of all top-level suites. */
  method CollectAll(suites: seq<Suite>) returns (allTests: Groups)
    ensures allTests == Grouped(FlattenAll(suites))
  {
    allTests := EMPTY;
    assert EMPTY.tests == Grouped([]).tests;
    ghost var done: seq<Filed> := [];
    for n := 0 to |suites|
      invariant done == FlattenAll(suites[..n]) && allTests == Grouped(done)
    {
      var child := CollectFromSuite(suites[n], []);
      NextSuite(suites, n);
      allTests := MergeTop(allTests, child, done, Flatten(suites[n], []));
      done := done + Flatten(suites[n], []);
    }
    assert suites[..|suites|] == suites;
  }

  lemma NextSuite(suites: seq<Suite>, n: nat)
    requires n < |suites|
    ensures FlattenAll(suites[..n + 1]) == FlattenAll(suites[..n]) + Flatten(suites[n], [])
  {
    assert suites[..n + 1][..n] == suites[..n];
  }

  /** The same merge without the special case. */
  method MergeTop(before: Groups, child: Groups, ghost a: seq<Filed>, ghost b: seq<Filed>) returns (result: Groups)
    requires before == Grouped(a) && child == Grouped(b)
    ensures result == Grouped(a + b)
  {
    result := before;
    MergeStarts(a, b);
    for n := 0 to |child.files|
      invariant result == Merged(a, b, n)
    {
      var key := child.files[n];
      var next := Set(result, key, Get(result, key) + child.tests[key]);
      MergeOne(a, b, n, result, key, next);
      result := next;
    }
    MergeEnds(a, b);
  }

  method BuildSpecs(g: Groups, ghost items: seq<Filed>) returns (specs: seq<Spec>)
    requires g == Grouped(items)
    ensures specs == SpecsOf(items, |Files(items)|)
  {
    specs := [];
    for n := 0 to |g.files|
      invariant specs == SpecsOf(items, n)
    {
      specs := specs + [SpecOf(g.files[n], g.tests[g.files[n]])];
    }
  }

  // ---------------------------------------------------------------- what the report says of each test

  /** The last attempt at a test, with the titles of the suites around it, outermost first, and its suite's file. */
  datatype Attempt = Attempt(path: seq<string>, suiteFile: Option<string>, spec: CaseSpec, last: Result)

  /** The attempts that count: of each suite its own, then those of the suites in it; nothing for a test without any. */
  function Attempts(suites: seq<Suite>, path: seq<string>): seq<Attempt>
    decreases suites
  {
    if suites == [] then []
    else
      var last := suites[|suites| - 1];
      var inside := path + [last.title];
      Attempts(suites[..|suites| - 1], path) + (SpecAttempts(last, last.specs, inside) + Attempts(last.suites, inside))
  }

  function SpecAttempts(suite: Suite, specs: seq<CaseSpec>, path: seq<string>): seq<Attempt> {
    if specs == [] then []
    else
      var last := specs[|specs| - 1];
      SpecAttempts(suite, specs[..|specs| - 1], path) + CaseAttempts(suite, last, last.tests, path)
  }

  function CaseAttempts(suite: Suite, spec: CaseSpec, cases: seq<Case>, path: seq<string>): seq<Attempt> {
    if cases == [] then []
    else
      var results := cases[|cases| - 1].results;
      CaseAttempts(suite, spec, cases[..|cases| - 1], path)
      + if |results| == 0 then [] else [Attempt(path, suite.file, spec, results[|results| - 1])]
  }

  predicate Passes(attempt: Attempt) { attempt.last.status == "passed" }

  predicate Fails(attempt: Attempt) { attempt.last.status in {"failed", "timedOut", "interrupted"} }

  predicate Skips(attempt: Attempt) { attempt.last.status !in {"passed", "failed", "timedOut", "interrupted"} }

  /** A test is what its last attempt says, and it is named after the suites around it that have a title. */
  predicate Tells(attempt: Attempt, test: Test) {
    && (test.status.Passed? <==> Passes(attempt)) && (test.status.Failed? <==> Fails(attempt))
    && (test.status.Skipped? <==> Skips(attempt))
    && Timed(attempt.last.duration, test.duration) && test.title == attempt.spec.title
    && test.fullTitle == Join(NonEmpty(attempt.path + [attempt.spec.title]), " > ")
  }

  /** It is filed under its spec's file, or else its suite's, or else the titles around it. */
  predicate TellsFile(attempt: Attempt, file: string) {
    && (attempt.spec.file.Some? ==> file == attempt.spec.file.value)
    && (attempt.spec.file.None? && attempt.suiteFile.Some? ==> file == attempt.suiteFile.value)
    && (attempt.spec.file.None? && attempt.suiteFile.None? ==> file == Join(NonEmpty(attempt.path), " > "))
  }

  predicate FiledAs(items: seq<Filed>, attempts: seq<Attempt>) {
    && |items| == |attempts|
    && forall i :: 0 <= i < |items| ==> Tells(attempts[i], items[i].test) && TellsFile(attempts[i], items[i].file)
  }

  lemma FiledAppend(a: seq<Filed>, x: seq<Attempt>, b: seq<Filed>, y: seq<Attempt>)
    requires FiledAs(a, x) && FiledAs(b, y)
    ensures FiledAs(a + b, x + y)
  {
  }

  /** What keeping the titles that are not empty keeps: each of them, in order. */
  lemma {:induction false} NonEmptyKeeps(titles: seq<string>)
    ensures "" !in NonEmpty(titles) && ("" !in titles ==> NonEmpty(titles) == titles)
    ensures forall title :: title in titles && title != "" ==> title in NonEmpty(titles)
  {
    if titles != [] {
      var front, last := titles[..|titles| - 1], titles[|titles| - 1];
      assert titles == front + [last];
      NonEmptyKeeps(front);
    }
  }

  lemma NonEmptyNext(titles: seq<string>, title: string)
    ensures NonEmpty(titles + [title]) == if title == "" then NonEmpty(titles) else NonEmpty(titles) + [title]
    ensures NonEmpty(NonEmpty(titles) + [title]) == NonEmpty(titles + [title])
  {
    assert (titles + [title])[..|titles|] == titles;
    assert (NonEmpty(titles) + [title])[..|NonEmpty(titles)|] == NonEmpty(titles);
    NonEmptyKeeps(titles);
    assert NonEmpty(NonEmpty(titles)) == NonEmpty(titles) by { NonEmptyKeeps(NonEmpty(titles)); }
  }

  lemma {:induction false} CasesTold(suite: Suite, spec: CaseSpec, n: nat, raw: seq<string>, path: seq<string>)
    requires n <= |spec.tests| && path == NonEmpty(raw)
    ensures FiledAs(FiledCases(suite, spec, path, n), CaseAttempts(suite, spec, spec.tests[..n], raw))
  {
    if n > 0 {
      CasesTold(suite, spec, n - 1, raw, path);
      var filed, attempts := OneCase(suite, spec, n - 1, raw, path);
      FiledAppend(FiledCases(suite, spec, path, n - 1), CaseAttempts(suite, spec, spec.tests[..n - 1], raw), filed, attempts);
    }
  }

  lemma OneCase(suite: Suite, spec: CaseSpec, n: nat, raw: seq<string>, path: seq<string>)
    returns (filed: seq<Filed>, attempts: seq<Attempt>)
    requires n < |spec.tests| && path == NonEmpty(raw)
    ensures FiledCases(suite, spec, path, n + 1) == FiledCases(suite, spec, path, n) + filed
    ensures CaseAttempts(suite, spec, spec.tests[..n + 1], raw) == CaseAttempts(suite, spec, spec.tests[..n], raw) + attempts
    ensures FiledAs(filed, attempts)
  {
    var results := spec.tests[n].results;
    assert spec.tests[..n + 1][..n] == spec.tests[..n];
    filed, attempts := [], [];
    if results != [] {
      var last := results[|results| - 1];
      filed := [Filed(FileOf(suite, spec, path), TestOf(spec, last, path))];
      attempts := [Attempt(raw, suite.file, spec, last)];
      AttemptTold(suite, spec, raw, path, last, filed[0], attempts[0]);
    }
  }

  lemma AttemptTold(suite: Suite, spec: CaseSpec, raw: seq<string>, path: seq<string>, last: Result, filed: Filed, attempt: Attempt)
    requires filed == Filed(FileOf(suite, spec, path), TestOf(spec, last, path)) && path == NonEmpty(raw)
    requires attempt == Attempt(raw, suite.file, spec, last)
    ensures Tells(attempt, filed.test) && TellsFile(attempt, filed.file)
  {
    NonEmptyNext(raw, spec.title);
  }

  lemma {:induction false} SpecsTold(suite: Suite, n: nat, raw: seq<string>, path: seq<string>)
    requires n <= |suite.specs| && path == NonEmpty(raw)
    ensures FiledAs(FiledSpecs(suite, path, n), SpecAttempts(suite, suite.specs[..n], raw))
  {
    if n > 0 {
      var spec := suite.specs[n - 1];
      assert suite.specs[..n][..n - 1] == suite.specs[..n - 1] && spec.tests[..|spec.tests|] == spec.tests;
      SpecsTold(suite, n - 1, raw, path);
      CasesTold(suite, spec, |spec.tests|, raw, path);
      FiledAppend(FiledSpecs(suite, path, n - 1), SpecAttempts(suite, suite.specs[..n - 1], raw),
                  FiledCases(suite, spec, path, |spec.tests|), CaseAttempts(suite, spec, spec.tests, raw));
    }
  }

  lemma {:induction false} SuiteTold(suite: Suite, raw: seq<string>, path: seq<string>)
    requires path == NonEmpty(raw)
    ensures FiledAs(Flatten(suite, path),
                    SpecAttempts(suite, suite.specs, raw + [suite.title]) + Attempts(suite.suites, raw + [suite.title]))
    decreases suite, 1, 0
  {
    NonEmptyNext(raw, suite.title);
    var inside := TitlePath(suite, path);
    assert suite.specs[..|suite.specs|] == suite.specs && suite.suites[..|suite.suites|] == suite.suites;
    SpecsTold(suite, |suite.specs|, raw + [suite.title], inside);
    ChildrenTold(suite, |suite.suites|, raw + [suite.title], inside);
    FiledAppend(FiledSpecs(suite, inside, |suite.specs|), SpecAttempts(suite, suite.specs, raw + [suite.title]),
                FlattenChildren(suite, inside, |suite.suites|), Attempts(suite.suites, raw + [suite.title]));
  }

  lemma {:induction false} ChildrenTold(suite: Suite, n: nat, raw: seq<string>, path: seq<string>)
    requires n <= |suite.suites| && path == NonEmpty(raw)
    ensures FiledAs(FlattenChildren(suite, path, n), Attempts(suite.suites[..n], raw))
    decreases suite, 0, n
  {
    if n > 0 {
      var child := suite.suites[n - 1];
      assert suite.suites[..n][..n - 1] == suite.suites[..n - 1];
      ChildrenTold(suite, n - 1, raw, path);
      SuiteTold(child, raw, path);
      FiledAppend(FlattenChildren(suite, path, n - 1), Attempts(suite.suites[..n - 1], raw), Flatten(child, path),
                  SpecAttempts(child, child.specs, raw + [child.title]) + Attempts(child.suites, raw + [child.title]));
    }
  }

  /** Every attempt that counts is filed, once and in order, as it says. */
  lemma {:induction false} ReportTold(suites: seq<Suite>)
    ensures FiledAs(FlattenAll(suites), Attempts(suites, []))
  {
    if suites != [] {
      var front, last := suites[..|suites| - 1], suites[|suites| - 1];
      ReportTold(front);
      SuiteTold(last, [], []);
      FiledAppend(FlattenAll(front), Attempts(front, []), Flatten(last, []),
                  SpecAttempts(last, last.specs, [] + [last.title]) + Attempts(last.suites, [] + [last.title]));
    }
  }

  /** The counters are those of the report's own words, whatever files the tests are grouped under. */
  lemma WordsCounted(suites: seq<Suite>, items: seq<Filed>, tests: seq<Test>, counts: Counts)
    requires items == FlattenAll(suites) && multiset(tests) == multiset(TestsAmong(items)) && counts == Tally(tests)
    ensures var attempts := Attempts(suites, []);
            && counts.total == |attempts| && counts.passed == CountIf(attempts, Passes)
            && counts.failed == CountIf(attempts, Fails) && counts.skipped == CountIf(attempts, Skips)
  {
    var among, attempts := TestsAmong(items), Attempts(suites, []);
    ReportTold(suites);
    assert Told(among, attempts, Tells);
    assert |tests| == |multiset(tests)| == |multiset(among)|;
    CountPermuted(tests, among, Passed);
    CountPermuted(tests, among, Failed);
    CountPermuted(tests, among, Skipped);
    ToldCount(among, attempts, Tells, Passed, Passes);
    ToldCount(among, attempts, Tells, Failed, Fails);
    ToldCount(among, attempts, Tells, Skipped, Skips);
  }

  /** The run: its pending counter is written as 0, and its duration is the report's own if it has one. */
  method ParsePlaywright(suites: seq<Suite>, reported: Option<Reading>) returns (run: Run)
    ensures run.specs == SpecsOf(FlattenAll(suites), |Files(FlattenAll(suites))|)
    ensures Conserves(run, multiset(TestsAmong(FlattenAll(suites)))) && FiledAs(FlattenAll(suites), Attempts(suites, []))
    ensures run.counts.passed == CountIf(Attempts(suites, []), Passes) && run.counts.failed == CountIf(Attempts(suites, []), Fails)
    ensures run.counts.skipped == CountIf(Attempts(suites, []), Skips) && run.counts.pending == 0
    ensures run.counts.total == |Attempts(suites, [])|
    ensures forall i :: 0 <= i < |run.specs| ==> run.specs[i].tests != []
    ensures |run.specs| == |Files(FlattenAll(suites))|
    ensures forall i :: 0 <= i < |run.specs| ==> SpecTells(run.specs[i], FlattenAll(suites), Files(FlattenAll(suites))[i])
    ensures run.duration == SafeDuration(if reported.Some? then reported.value else Finite(SumTimes(run.specs)))
  {
    var allTests := CollectAll(suites);
    ghost var items := FlattenAll(suites);
    var specs := BuildSpecs(allTests, items);
    var counts := SumCounts(specs);
    SpecsConserve(items, specs, counts);
    run := Run(counts.(pending := 0), SafeDuration(if reported.Some? then reported.value else Finite(SumTimes(specs))), specs);
    RunConserves(run, multiset(TestsAmong(items)));
    ReportTold(suites);
    WordsCounted(suites, items, AllTests(specs), run.counts);
  }

  // ---------------------------------------------------------------- conservation

  function TestsAmong(items: seq<Filed>): (r: seq<Test>)
    ensures |r| == |items| && forall i :: 0 <= i < |r| ==> r[i] == items[i].test
  {
    seq(|items|, i requires 0 <= i < |items| => items[i].test)
  }

  /** The tests of the files from the n-th on. */
  function OtherTests(items: seq<Filed>, files: seq<string>): multiset<Test> {
    if items == [] then multiset{}
    else
      OtherTests(items[..|items| - 1], files)
      + (if items[|items| - 1].file in files then multiset{} else multiset{items[|items| - 1].test})
  }

  lemma {:induction false} OneMoreFile(items: seq<Filed>, files: seq<string>, f: string)
    requires f !in files
    ensures OtherTests(items, files) == OtherTests(items, files + [f]) + multiset(TestsOf(items, f))
  {
    if items != [] {
      OneMoreFile(items[..|items| - 1], files, f);
    }
  }

  lemma {:induction false} NoFilesYet(items: seq<Filed>)
    ensures OtherTests(items, []) == multiset(TestsAmong(items))
  {
    if items != [] {
      NoFilesYet(items[..|items| - 1]);
      assert TestsAmong(items) == TestsAmong(items[..|items| - 1]) + [items[|items| - 1].test];
    }
  }

  lemma {:induction false} AllFiles(items: seq<Filed>, files: seq<string>)
    requires forall i :: 0 <= i < |items| ==> items[i].file in files
    ensures OtherTests(items, files) == multiset{}
  {
    if items != [] { AllFiles(items[..|items| - 1], files); }
  }

  lemma OneMoreSpec(items: seq<Filed>, n: nat, f: string)
    requires 0 < n <= |Files(items)| && f == Files(items)[n - 1]
    ensures multiset(AllTests(SpecsOf(items, n))) == multiset(AllTests(SpecsOf(items, n - 1))) + multiset(TestsOf(items, f))
    ensures SumCounts(SpecsOf(items, n)) == Plus(SumCounts(SpecsOf(items, n - 1)), Tally(TestsOf(items, f)))
  {
    SpecsAppend(SpecsOf(items, n - 1), SpecOf(f, TestsOf(items, f)));
  }

  lemma Moves(a: multiset<Test>, f: multiset<Test>, rest: multiset<Test>, before: multiset<Test>, all: multiset<Test>)
    requires a + before == all && before == rest + f
    ensures (a + f) + rest == all
  {
  }

  /** The tests of the first n groups. */
  function InGroups(items: seq<Filed>, n: nat): multiset<Test>
    requires n <= |Files(items)|
  {
    if n == 0 then multiset{} else InGroups(items, n - 1) + multiset(TestsOf(items, Files(items)[n - 1]))
  }

  lemma {:induction false} SpecsInGroups(items: seq<Filed>, n: nat)
    requires n <= |Files(items)|
    ensures multiset(AllTests(SpecsOf(items, n))) == InGroups(items, n)
  {
    if n > 0 {
      SpecsInGroups(items, n - 1);
      OneMoreSpec(items, n, Files(items)[n - 1]);
    }
  }

  lemma NoneGrouped(items: seq<Filed>, all: multiset<Test>)
    requires all == multiset(TestsAmong(items))
    ensures InGroups(items, 0) + OtherTests(items, Files(items)[..0]) == all
  {
    NoFilesYet(items);
    assert Files(items)[..0] == [];
  }

  lemma OneMoreGroup(items: seq<Filed>, n: nat, all: multiset<Test>)
    requires 0 < n <= |Files(items)| && InGroups(items, n - 1) + OtherTests(items, Files(items)[..n - 1]) == all
    ensures InGroups(items, n) + OtherTests(items, Files(items)[..n]) == all
  {
    var f := Files(items)[n - 1];
    NextFile(items, n - 1);
    OneMoreFile(items, Files(items)[..n - 1], f);
    Moves(InGroups(items, n - 1), multiset(TestsOf(items, f)), OtherTests(items, Files(items)[..n]),
          OtherTests(items, Files(items)[..n - 1]), all);
  }

  /** Whatever is not in the first n groups is still to come. */
  lemma {:induction false} GroupsConserve(items: seq<Filed>, n: nat, all: multiset<Test>)
    requires n <= |Files(items)| && all == multiset(TestsAmong(items))
    ensures InGroups(items, n) + OtherTests(items, Files(items)[..n]) == all
  {
    if n == 0 {
      NoneGrouped(items, all);
    } else {
      GroupsConserve(items, n - 1, all);
      OneMoreGroup(items, n, all);
    }
  }

  lemma {:induction false} NothingPending(items: seq<Filed>, f: string)
    requires forall i :: 0 <= i < |items| ==> items[i].test.status != Pending
    ensures forall t :: t in TestsOf(items, f) ==> t.status != Pending
  {
    if items != [] { NothingPending(items[..|items| - 1], f); }
  }

  lemma {:induction false} SumsNoPending(items: seq<Filed>, n: nat)
    requires n <= |Files(items)| && forall i :: 0 <= i < |items| ==> items[i].test.status != Pending
    ensures SumCounts(SpecsOf(items, n)).pending == 0
  {
    if n > 0 {
      SumsNoPending(items, n - 1);
      var f := Files(items)[n - 1];
      NothingPending(items, f);
      CountZero(TestsOf(items, f), Pending);
      OneMoreSpec(items, n, f);
    }
  }

  lemma AllGrouped(items: seq<Filed>)
    ensures multiset(AllTests(SpecsOf(items, |Files(items)|))) == multiset(TestsAmong(items))
  {
    var n := |Files(items)|;
    assert Files(items)[..n] == Files(items);
    AllFiles(items, Files(items));
    SpecsInGroups(items, n);
    GroupsConserve(items, n, multiset(TestsAmong(items)));
    NothingLeft(InGroups(items, n), multiset(TestsAmong(items)));
  }

  lemma NothingLeft(done: multiset<Test>, all: multiset<Test>)
    requires done + multiset{} == all
    ensures done == all
  {
  }

  /** Every test with a result is in exactly one spec, no spec is empty, and writing 0 for pending is exact. */
  lemma SpecsConserve(items: seq<Filed>, specs: seq<Spec>, counts: Counts)
    requires specs == SpecsOf(items, |Files(items)|) && counts == SumCounts(specs)
    requires forall i :: 0 <= i < |items| ==> items[i].test.status != Pending
    ensures multiset(AllTests(specs)) == multiset(TestsAmong(items)) && counts.pending == 0
    ensures forall i :: 0 <= i < |specs| ==> specs[i].tests != []
  {
    AllGrouped(items);
    SumsNoPending(items, |Files(items)|);
    forall i | 0 <= i < |specs| ensures specs[i].tests != [] { TestsOfNone(items, Files(items)[i]); }
  }
}
