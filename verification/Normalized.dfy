// What every report normalizer produces: specs with their tests and counters, and a run that sums them.
module Normalized {
  import opened Text

  datatype Status = Passed | Failed | Skipped | Pending

  datatype Test = Test(title: string, fullTitle: string, status: Status, duration: real)

  datatype Counts = Counts(total: nat, passed: nat, failed: nat, skipped: nat, pending: nat)

  datatype Spec = Spec(filePath: string, title: string, counts: Counts, duration: real, tests: seq<Test>)

  datatype Run = Run(counts: Counts, duration: real, specs: seq<Spec>)

  // ---------------------------------------------------------------- durations

  /** What a report holds where a duration should be. */
  datatype Reading = NotFinite | Finite(value: real)

  /** NaN, infinities and negative readings count as no time at all. */
  function SafeDuration(d: Reading): (r: real)
    ensures r >= 0.0
  {
    if d.Finite? && d.value > 0.0 then d.value else 0.0
  }

  // ---------------------------------------------------------------- counting

  function CountStatus(tests: seq<Test>, status: Status): nat {
    if tests == [] then 0
    else CountStatus(tests[..|tests| - 1], status) + (if tests[|tests| - 1].status == status then 1 else 0)
  }

  function SumDurations(tests: seq<Test>): real {
    if tests == [] then 0.0 else SumDurations(tests[..|tests| - 1]) + tests[|tests| - 1].duration
  }

  /** A spec's counters, from its tests. */
  function Tally(tests: seq<Test>): Counts {
    Counts(|tests|, CountStatus(tests, Passed), CountStatus(tests, Failed), CountStatus(tests, Skipped),
           CountStatus(tests, Pending))
  }

  const NOTHING := Counts(0, 0, 0, 0, 0)

  function Plus(a: Counts, b: Counts): Counts {
    Counts(a.total + b.total, a.passed + b.passed, a.failed + b.failed, a.skipped + b.skipped, a.pending + b.pending)
  }

  /** The counters of a list of specs, summed one column at a time. */
  function SumCounts(specs: seq<Spec>): Counts {
    if specs == [] then NOTHING else Plus(SumCounts(specs[..|specs| - 1]), specs[|specs| - 1].counts)
  }

  function SumTimes(specs: seq<Spec>): real {
    if specs == [] then 0.0 else SumTimes(specs[..|specs| - 1]) + specs[|specs| - 1].duration
  }

  predicate Balanced(c: Counts) { c.total == c.passed + c.failed + c.skipped + c.pending }

  lemma {:induction false} TallyBalanced(tests: seq<Test>)
    ensures Balanced(Tally(tests))
  {
    if tests != [] { TallyBalanced(tests[..|tests| - 1]); }
  }

  /** Every spec counts its own tests. */
  predicate SpecsTally(specs: seq<Spec>) {
    forall i :: 0 <= i < |specs| ==> specs[i].counts == Tally(specs[i].tests)
  }

  lemma {:induction false} SumBalanced(specs: seq<Spec>)
    requires SpecsTally(specs)
    ensures Balanced(SumCounts(specs))
  {
    if specs != [] {
      SumBalanced(specs[..|specs| - 1]);
      TallyBalanced(specs[|specs| - 1].tests);
    }
  }

  /** All tests of a list of specs, in order. */
  function AllTests(specs: seq<Spec>): seq<Test> {
    if specs == [] then [] else AllTests(specs[..|specs| - 1]) + specs[|specs| - 1].tests
  }

  lemma {:induction false} CountAppend(a: seq<Test>, b: seq<Test>, status: Status)
    ensures CountStatus(a + b, status) == CountStatus(a, status) + CountStatus(b, status)
  {
    if b == [] {
      assert a + b == a;
    } else {
      assert (a + b)[..|a + b| - 1] == a + b[..|b| - 1];
      CountAppend(a, b[..|b| - 1], status);
    }
  }

  lemma TallyAppend(a: seq<Test>, b: seq<Test>)
    ensures Tally(a + b) == Plus(Tally(a), Tally(b))
  {
    CountAppend(a, b, Passed);
    CountAppend(a, b, Failed);
    CountAppend(a, b, Skipped);
    CountAppend(a, b, Pending);
    PlusIs(Tally(a + b), Tally(a), Tally(b));
  }

  lemma PlusIs(sum: Counts, a: Counts, b: Counts)
    requires sum.total == a.total + b.total && sum.passed == a.passed + b.passed && sum.failed == a.failed + b.failed
    requires sum.skipped == a.skipped + b.skipped && sum.pending == a.pending + b.pending
    ensures sum == Plus(a, b)
  {
  }

  /** Summing the specs' counters is counting all their tests. */
  lemma {:induction false} SumIsTally(specs: seq<Spec>)
    requires SpecsTally(specs)
    ensures SumCounts(specs) == Tally(AllTests(specs))
  {
    if specs != [] {
      var front, last := specs[..|specs| - 1], specs[|specs| - 1];
      SumIsTally(front);
      TallyAppend(AllTests(front), last.tests);
    }
  }

  lemma {:induction false} CountZero(tests: seq<Test>, status: Status)
    requires forall i :: 0 <= i < |tests| ==> tests[i].status != status
    ensures CountStatus(tests, status) == 0
  {
    if tests != [] { CountZero(tests[..|tests| - 1], status); }
  }

  lemma SpecsAppend(specs: seq<Spec>, spec: Spec)
    ensures AllTests(specs + [spec]) == AllTests(specs) + spec.tests
    ensures SumCounts(specs + [spec]) == Plus(SumCounts(specs), spec.counts)
  {
    assert (specs + [spec])[..|specs|] == specs;
  }

  // ---------------------------------------------------------------- one spec per item

  /** A spec made of each item. */
  function MapSpecs<T>(items: seq<T>, f: T -> Spec): (r: seq<Spec>)
    ensures |r| == |items| && forall i :: 0 <= i < |r| ==> r[i] == f(items[i])
  {
    if items == [] then [] else MapSpecs(items[..|items| - 1], f) + [f(items[|items| - 1])]
  }

  lemma MapNext<T>(items: seq<T>, f: T -> Spec, i: nat)
    requires i < |items|
    ensures MapSpecs(items[..i + 1], f) == MapSpecs(items[..i], f) + [f(items[i])]
  {
    assert items[..i + 1][..i] == items[..i];
  }

  /** The tests of all items, in order. */
  function MapTests<T>(items: seq<T>, f: T -> Spec): seq<Test> {
    if items == [] then [] else MapTests(items[..|items| - 1], f) + f(items[|items| - 1]).tests
  }

  /** The tests of a list of items, item by item. */
  function Gather<T>(items: seq<T>, tests: T -> seq<Test>): seq<Test> {
    if items == [] then [] else Gather(items[..|items| - 1], tests) + tests(items[|items| - 1])
  }

  lemma {:induction false} GatherAppend<T>(a: seq<T>, b: seq<T>, tests: T -> seq<Test>)
    ensures Gather(a + b, tests) == Gather(a, tests) + Gather(b, tests)
  {
    if b == [] {
      assert a + b == a;
    } else {
      assert (a + b)[..|a + b| - 1] == a + b[..|b| - 1];
      GatherAppend(a, b[..|b| - 1], tests);
    }
  }

  /** Specs that each hold and tally the tests of one item hold and tally the tests of them all. */
  lemma {:induction false} SpecsGather<T(!new)>(items: seq<T>, f: T -> Spec, tests: T -> seq<Test>)
    requires forall item :: f(item).tests == tests(item) && f(item).counts == Tally(tests(item))
    ensures AllTests(MapSpecs(items, f)) == Gather(items, tests) && SpecsTally(MapSpecs(items, f))
  {
    if items != [] {
      var front, last := items[..|items| - 1], items[|items| - 1];
      SpecsGather(front, f, tests);
      SpecsAppend(MapSpecs(front, f), f(last));
    }
  }

  lemma {:induction false} MapKeepsTests<T>(items: seq<T>, f: T -> Spec)
    ensures AllTests(MapSpecs(items, f)) == MapTests(items, f)
  {
    if items != [] {
      var front, last := items[..|items| - 1], items[|items| - 1];
      MapKeepsTests(front, f);
      SpecsAppend(MapSpecs(front, f), f(last));
    }
  }

  lemma {:induction false} MapConcat<T>(a: seq<T>, b: seq<T>, f: T -> Spec)
    ensures MapTests(a + b, f) == MapTests(a, f) + MapTests(b, f)
  {
    if b == [] {
      assert a + b == a;
    } else {
      assert (a + b)[..|a + b| - 1] == a + b[..|b| - 1];
      MapConcat(a, b[..|b| - 1], f);
    }
  }

  lemma MapOne<T>(item: T, f: T -> Spec)
    ensures MapTests([item], f) == f(item).tests
  {
    assert [item][..0] == [];
    assert MapTests([item][..0], f) + f(item).tests == f(item).tests;
  }

  lemma {:induction false} MapNonePending<T>(items: seq<T>, f: T -> Spec)
    requires forall i :: 0 <= i < |items| ==> f(items[i]).counts.pending == 0
    ensures SumCounts(MapSpecs(items, f)).pending == 0
  {
    if items != [] {
      var front, last := items[..|items| - 1], items[|items| - 1];
      MapNonePending(front, f);
      SpecsAppend(MapSpecs(front, f), f(last));
    }
  }

  lemma {:induction false} TimesNonNegative(specs: seq<Spec>)
    requires forall i :: 0 <= i < |specs| ==> specs[i].duration >= 0.0
    ensures SumTimes(specs) >= 0.0
  {
    if specs != [] { TimesNonNegative(specs[..|specs| - 1]); }
  }

  lemma {:induction false} DurationsNonNegative(tests: seq<Test>)
    requires forall i :: 0 <= i < |tests| ==> tests[i].duration >= 0.0
    ensures SumDurations(tests) >= 0.0
  {
    if tests != [] { DurationsNonNegative(tests[..|tests| - 1]); }
  }

  /** The last part of a path; the path itself when that is what is left. */
  function BaseName(path: string): string {
    if path == "" then ""
    else if path[|path| - 1] == '/' then ""
    else BaseName(path[..|path| - 1]) + [path[|path| - 1]]
  }

  lemma {:induction false} BaseNameIsLastPart(path: string) returns (dir: string)
    ensures path == dir + BaseName(path) && '/' !in BaseName(path)
    ensures dir == "" || dir[|dir| - 1] == '/'
  {
    dir := path;
    if path != "" && path[|path| - 1] != '/' { dir := BaseNameIsLastPart(path[..|path| - 1]); }
  }

  // ---------------------------------------------------------------- what a report says of its tests

  /** How many items of a list have a property. */
  function CountIf<T>(items: seq<T>, p: T -> bool): nat {
    |set i: nat | i < |items| && p(items[i])|
  }

  lemma CountIfNext<T>(items: seq<T>, p: T -> bool)
    requires items != []
    ensures CountIf(items, p) == CountIf(items[..|items| - 1], p) + if p(items[|items| - 1]) then 1 else 0
  {
    var front := items[..|items| - 1];
    var all, before := set i: nat | i < |items| && p(items[i]), set i: nat | i < |front| && p(front[i]);
    if p(items[|front|]) { assert all == before + {|front|}; } else { assert all == before; }
  }

  /** Each test is what the report says of it, in order. */
  predicate Told<T(!new)>(tests: seq<Test>, items: seq<T>, tells: (T, Test) -> bool) {
    |tests| == |items| && forall i :: 0 <= i < |tests| ==> tells(items[i], tests[i])
  }

  lemma ToldAppend<T(!new)>(a: seq<Test>, x: seq<T>, b: seq<Test>, y: seq<T>, tells: (T, Test) -> bool)
    requires Told(a, x, tells) && Told(b, y, tells)
    ensures Told(a + b, x + y, tells)
  {
  }

  /** The counter of a status is the number of items that say so. */
  lemma {:induction false} ToldCount<T(!new)>(tests: seq<Test>, items: seq<T>, tells: (T, Test) -> bool, status: Status, p: T -> bool)
    requires Told(tests, items, tells)
    requires forall i :: 0 <= i < |tests| ==> (tests[i].status == status <==> p(items[i]))
    ensures CountStatus(tests, status) == CountIf(items, p)
  {
    if tests != [] {
      ToldCount(tests[..|tests| - 1], items[..|items| - 1], tells, status, p);
      CountIfNext(items, p);
    } else {
      assert CountIf(items, p) == 0;
    }
  }

  /** The time a test took: what the report says if that is a positive number, and nothing otherwise. */
  predicate Timed(said: Reading, duration: real) {
    && (said.Finite? && said.value > 0.0 ==> duration == said.value)
    && (said.NotFinite? || said.value <= 0.0 ==> duration == 0.0)
  }

  lemma {:induction false} SumDurationsAppend(a: seq<Test>, b: seq<Test>)
    ensures SumDurations(a + b) == SumDurations(a) + SumDurations(b)
  {
    if b == [] {
      assert a + b == a;
    } else {
      assert (a + b)[..|a + b| - 1] == a + b[..|b| - 1];
      SumDurationsAppend(a, b[..|b| - 1]);
    }
  }

  /** Where every spec takes the time of its tests, the run takes the time of all of them. */
  lemma {:induction false} RunTakesItsTests(specs: seq<Spec>)
    requires forall i :: 0 <= i < |specs| ==> specs[i].duration == SumDurations(specs[i].tests)
    ensures SumTimes(specs) == SumDurations(AllTests(specs))
  {
    if specs != [] {
      var front, last := specs[..|specs| - 1], specs[|specs| - 1];
      RunTakesItsTests(front);
      SumDurationsAppend(AllTests(front), last.tests);
    }
  }

  lemma CountBetween(left: seq<Test>, test: Test, right: seq<Test>, status: Status)
    ensures CountStatus(left + [test] + right, status) == CountStatus(left + right, status) + if test.status == status then 1 else 0
  {
    assert left + [test] + right == (left + [test]) + right;
    assert (left + [test])[..|left|] == left;
    CountAppend(left + [test], right, status);
    CountAppend(left, right, status);
  }

  lemma {:induction false} CountPermuted(a: seq<Test>, b: seq<Test>, status: Status)
    requires multiset(a) == multiset(b)
    ensures CountStatus(a, status) == CountStatus(b, status)
  {
    if a == [] {
      assert |b| == |multiset(b)|;
    } else {
      var last := a[|a| - 1];
      assert a == a[..|a| - 1] + [last] && last in multiset(a);
      var left, right := TakenOut(b, last);
      Removed(a, a[..|a| - 1], b, left, last, right);
      CountPermuted(a[..|a| - 1], left + right, status);
      CountBetween(left, last, right, status);
    }
  }

  lemma TakenOut(b: seq<Test>, test: Test) returns (left: seq<Test>, right: seq<Test>)
    requires test in multiset(b)
    ensures b == left + [test] + right
  {
    var k :| 0 <= k < |b| && b[k] == test;
    left, right := b[..k], b[k + 1..];
  }

  lemma Removed(a: seq<Test>, front: seq<Test>, b: seq<Test>, left: seq<Test>, test: Test, right: seq<Test>)
    requires a == front + [test] && b == left + [test] + right && multiset(a) == multiset(b)
    ensures multiset(front) == multiset(left + right)
  {
    var one := multiset([test]);
    assert multiset(a) == multiset(front) + one;
    assert multiset(b) == (multiset(left) + one) + multiset(right);
    assert multiset(left + right) == multiset(left) + multiset(right);
    TakeAway(multiset(front), multiset(left), one, multiset(right));
  }

  lemma TakeAway(front: multiset<Test>, left: multiset<Test>, one: multiset<Test>, right: multiset<Test>)
    requires front + one == (left + one) + right
    ensures front == left + right
  {
    assert front == (front + one) - one;
    assert left + right == ((left + one) + right) - one;
  }

  // ---------------------------------------------------------------- what normalizing promises

  /** A run that conserves the tests of its report: they are exactly its specs' tests, every spec counts its own,
      the run's counters are the sums that recalculating them from the specs gives, and they add up. */
  predicate Conserves(run: Run, tests: multiset<Test>) {
    && multiset(AllTests(run.specs)) == tests
    && SpecsTally(run.specs)
    && run.counts == SumCounts(run.specs)
    && Balanced(run.counts)
  }

  lemma RunConserves(run: Run, tests: multiset<Test>)
    requires multiset(AllTests(run.specs)) == tests && SpecsTally(run.specs) && run.counts == SumCounts(run.specs)
    ensures Conserves(run, tests) && run.counts == Tally(AllTests(run.specs))
  {
    SumBalanced(run.specs);
    SumIsTally(run.specs);
  }
}
