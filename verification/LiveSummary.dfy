// What the counters of a live run say, number by number: which rows each of them counts, and what
// becomes of the numbers a reporter sends in a summary.
module LiveSummary {
  import opened Text
  import opened LiveTables
  import opened LiveRaces
  import opened LiveEvents
  import opened LiveReplay

  // ---------------------------------------------------------------- which rows a counter counts

  /** The rows of spec s with this status, by position. */
  function RowsWith(tests: seq<Test>, s: nat, status: Status): set<nat> {
    set i: nat | i < |tests| && tests[i].spec == s && tests[i].outcome.status == status
  }

  function RowsOf(tests: seq<Test>, s: nat): set<nat> {
    set i: nat | i < |tests| && tests[i].spec == s
  }

  function DurationOf(tests: seq<Test>, s: nat): int {
    if tests == [] then 0
    else DurationOf(tests[..|tests| - 1], s)
         + (if tests[|tests| - 1].spec == s then tests[|tests| - 1].outcome.duration else 0)
  }

  lemma RowsWithNext(tests: seq<Test>, front: seq<Test>, last: Test, s: nat, status: Status)
    requires tests == front + [last]
    ensures |RowsWith(tests, s, status)|
            == |RowsWith(front, s, status)| + (if last.spec == s && last.outcome.status == status then 1 else 0)
  {
    var added := if last.spec == s && last.outcome.status == status then {|front|} else {};
    assert RowsWith(tests, s, status) == RowsWith(front, s, status) + added;
    assert RowsWith(front, s, status) * added == {};
  }

  lemma RowsOfNext(tests: seq<Test>, front: seq<Test>, last: Test, s: nat)
    requires tests == front + [last]
    ensures |RowsOf(tests, s)| == |RowsOf(front, s)| + (if last.spec == s then 1 else 0)
  {
    var added := if last.spec == s then {|front|} else {};
    assert RowsOf(tests, s) == RowsOf(front, s) + added;
    assert RowsOf(front, s) * added == {};
  }

  /** Each counter of a counted spec is the number of its rows with the status of that name, the total that of all of
      them, and the duration their sum. */
  lemma {:induction false} CountersCount(tests: seq<Test>, s: nat)
    ensures var c := CountTests(tests, s);
            && c.total == |RowsOf(tests, s)| && c.duration == DurationOf(tests, s)
            && c.passed == |RowsWith(tests, s, Passed)| && c.failed == |RowsWith(tests, s, Failed)|
            && c.skipped == |RowsWith(tests, s, Skipped)| && c.pending == |RowsWith(tests, s, Pending)|
  {
    if tests == [] {
      assert RowsOf(tests, s) == {};
      forall status ensures RowsWith(tests, s, status) == {} {}
    } else {
      var front, last := tests[..|tests| - 1], tests[|tests| - 1];
      assert tests == front + [last];
      CountersCount(front, s);
      RowsOfNext(tests, front, last, s);
      RowsWithNext(tests, front, last, s, Passed);
      RowsWithNext(tests, front, last, s, Failed);
      RowsWithNext(tests, front, last, s, Skipped);
      RowsWithNext(tests, front, last, s, Pending);
    }
  }

  // ---------------------------------------------------------------- which summary number goes where

  /** The counters as a summary leaves them: its four numbers under their names, the other two as they were. */
  predicate HoldsStats(after: Counts, before: Counts, stats: Stats) {
    && after.total == stats.total && after.passed == stats.passed && after.failed == stats.failed
    && after.skipped == stats.skipped && after.pending == before.pending && after.duration == before.duration
  }

  /** A run's counters moved by the difference between a spec's old ones and the summary. */
  predicate Moved(after: Counts, before: Counts, was: Counts, stats: Stats) {
    && after.total == before.total + stats.total - was.total && after.passed == before.passed + stats.passed - was.passed
    && after.failed == before.failed + stats.failed - was.failed
    && after.skipped == before.skipped + stats.skipped - was.skipped
    && after.pending == before.pending && after.duration == before.duration
  }

  lemma {:induction false} SumMoved(specs: seq<Spec>, s: nat, stats: Stats, counts: Counts, after: seq<Spec>)
    requires s < |specs| && HoldsStats(counts, specs[s].counts, stats) && after == specs[s := specs[s].(counts := counts)]
    ensures Moved(SumSpecs(after, specs[s].run), SumSpecs(specs, specs[s].run), specs[s].counts, stats)
  {
    var last := |specs| - 1;
    if s == last {
      assert after[..last] == specs[..last];
    } else {
      assert after[..last] == specs[..last][s := specs[s].(counts := counts)] && after[last] == specs[last];
      SumMoved(specs[..last], s, stats, counts, after[..last]);
    }
  }

  /** spec.finished of a spec without rows: its counters hold the summary, no other spec and no row changes, and its
      run's counters, if they were exact, move by the difference; no other run's change. */
  lemma SummaryStored(db: Tables, q: Query, s: nat, r: Tables)
    requires Wf(db) && q.EndSpec? && r == Handle(db, q) && SpecAt(db.specs, q.run, q.path) == Some(s) && !HasTests(db.tests, s)
    ensures r.tests == db.tests && |r.specs| == |db.specs| && r.runs.Keys == db.runs.Keys
    ensures HoldsStats(r.specs[s].counts, db.specs[s].counts, q.stats)
    ensures r.specs[s].run == db.specs[s].run && r.specs[s].path == db.specs[s].path
    ensures forall i :: 0 <= i < |db.specs| && i != s ==> r.specs[i] == db.specs[i]
    ensures q.run in db.runs
    ensures RunExact(db, q.run) ==> RunExact(r, q.run) && Moved(r.runs[q.run], db.runs[q.run], db.specs[s].counts, q.stats)
    ensures forall run :: run in db.runs && run != q.run ==> r.runs[run] == db.runs[run]
  {
    assert db.specs[s].run in db.runs;
    SumMoved(db.specs, s, q.stats, r.specs[s].counts, r.specs);
  }

  /** A summary for a spec that does not exist stores nothing, and the run is summed again. */
  lemma SummaryOfNothing(db: Tables, q: Query, r: Tables)
    requires Wf(db) && q.EndSpec? && r == Handle(db, q) && SpecAt(db.specs, q.run, q.path).None?
    ensures r.tests == db.tests && r.specs == db.specs
    ensures forall run :: run in db.runs ==> run in r.runs && (RunExact(db, run) || run != q.run ==> r.runs[run] == db.runs[run])
  {
  }

  // ---------------------------------------------------------------- sequences of events

  /** The last summary sent for the spec once it existed, if any. */
  function LastSummary(db: Tables, events: seq<Query>, run: nat, path: string): Option<Stats>
    requires Wf(db)
  {
    if events == [] then None
    else
      var front, q := events[..|events| - 1], events[|events| - 1];
      if q.EndSpec? && q.run == run && q.path == path && SpecAt(Process(db, front).specs, run, path).Some? then Some(q.stats)
      else LastSummary(db, front, run, path)
  }

  /** Counters without a summary to hold are those of a new spec, or those the spec had. */
  predicate Tells(c: Counts, was: Counts, stats: Option<Stats>) {
    if stats.Some? then HoldsStats(c, was, stats.value) else c == was
  }

  lemma {:induction false} RefreshedOthers(db: Tables, specs: seq<nat>, s: nat)
    requires Wf(db) && SpecIds(db, specs) && s < |db.specs| && s !in specs
    ensures RefreshedAll(db, specs).specs[s] == db.specs[s]
  {
    if specs != [] {
      assert specs[|specs| - 1] in specs;
      RefreshedOthers(db, specs[..|specs| - 1], s);
    }
  }

  lemma AbortSpares(db: Tables, run: nat, error: string, s: nat, r: Tables)
    requires Wf(db) && r == Aborted(db, run, error) && s < |db.specs| && s < |r.specs| && !HasTests(r.tests, s)
    ensures r.specs[s] == db.specs[s]
  {
    var specs := AbortedSpecs(db, run, |db.tests|);
    AbortedIds(db, run);
    assert forall i :: 0 <= i < |db.tests| ==> r.tests[i].spec == db.tests[i].spec;
    RefreshedOthers(WithTests(db, WithAborted(db, run, error)), specs, s);
  }

  /** One event and a spec that is left without rows: unless it is a summary for it, it keeps its counters. */
  lemma OtherEvent(db: Tables, q: Query, s: nat, r: Tables)
    requires Wf(db) && r == Handle(db, q) && s < |db.specs| && s < |r.specs| && !HasTests(r.tests, s)
    requires !(q.EndSpec? && q.run == db.specs[s].run && q.path == db.specs[s].path)
    ensures r.specs[s] == db.specs[s]
  {
    match q
    case Abort(run, error) => AbortSpares(db, run, error, s, r);
    case StartTest(run, path, title) => if run in db.runs { TestStartSpares(db, run, path, title, s, r); }
    case EndTest(run, path, title, o) => if run in db.runs { TestEndSpares(db, run, path, title, o, s, r); }
    case Shot(run, path, title, key) => ShotSpares(db, run, path, title, key, s, r);
    case _ =>
  }

  lemma TestStartSpares(db: Tables, run: nat, path: string, title: string, s: nat, r: Tables)
    requires Wf(db) && run in db.runs && r == TestStarted(db, run, path, title) && s < |db.specs| && !HasTests(r.tests, s)
    ensures s < |r.specs| && r.specs[s] == db.specs[s]
  {
    var d := WithSpec(db, run, path);
    var t := Found(d, run, path);
    if !HasRow(d.tests, t, title) { assert r.tests[|d.tests|].spec == t; }
  }

  lemma TestEndSpares(db: Tables, run: nat, path: string, title: string, o: Outcome, s: nat, r: Tables)
    requires Wf(db) && run in db.runs && r == TestEnded(db, run, path, title, o) && s < |db.specs| && !HasTests(r.tests, s)
    ensures s < |r.specs| && r.specs[s] == db.specs[s]
  {
    var d := WithSpec(db, run, path);
    var t := Found(d, run, path);
    if HasRow(d.tests, t, title) {
      var i :| 0 <= i < |d.tests| && Keyed(d.tests[i], t, title);
      assert r.tests[i].spec == t;
    } else {
      assert r.tests[|d.tests|].spec == t;
    }
  }

  lemma ShotRowThere(tests: seq<Test>, s: nat, title: string, key: string)
    ensures HasTests(WithShotRow(tests, s, title, key), s)
  {
    var r := WithShotRow(tests, s, title, key);
    if HasPending(tests, s, title) {
      var i :| 0 <= i < |tests| && Keyed(tests[i], s, title) && tests[i].outcome.status.Pending?;
      assert r[i].spec == s;
    } else {
      assert r[|tests|].spec == s;
    }
  }

  lemma ShotSpares(db: Tables, run: nat, path: string, title: string, key: string, s: nat, r: Tables)
    requires Wf(db) && r == ShotPosted(db, run, path, title, key) && s < |db.specs| && !HasTests(r.tests, s)
    ensures s < |r.specs| && r.specs[s] == db.specs[s]
  {
    var found := SpecAt(db.specs, run, path);
    if !(found.Some? && ShotLands(db.tests, found.value, title, key)) && run in db.runs {
      var d := WithSpec(db, run, path);
      ShotRowThere(d.tests, Found(d, run, path), title, key);
    }
  }

  /** The specs of b are those of a, with more behind them, and so are the rows. */
  predicate Grown(a: Tables, b: Tables) {
    && |a.specs| <= |b.specs| && |a.tests| <= |b.tests|
    && (forall i :: 0 <= i < |a.specs| ==> b.specs[i].run == a.specs[i].run && b.specs[i].path == a.specs[i].path)
    && (forall i :: 0 <= i < |a.tests| ==> b.tests[i].spec == a.tests[i].spec)
  }

  lemma {:induction false} RefreshedGrown(db: Tables, specs: seq<nat>)
    requires Wf(db) && SpecIds(db, specs)
    ensures Grown(db, RefreshedAll(db, specs))
  {
    if specs != [] { RefreshedGrown(db, specs[..|specs| - 1]); }
  }

  lemma OneGrown(db: Tables, tests: seq<Test>, s: nat)
    requires Wf(db) && s < |db.specs| && |db.tests| <= |tests|
    requires forall i :: 0 <= i < |tests| ==> tests[i].spec < |db.specs|
    requires forall i :: 0 <= i < |db.tests| ==> tests[i].spec == db.tests[i].spec
    ensures Grown(db, Refreshed(WithTests(db, tests), s))
  {
  }

  lemma SpecGrown(db: Tables, run: nat, path: string, d: Tables, r: Tables)
    requires Wf(db) && run in db.runs && d == WithSpec(db, run, path) && Grown(d, r)
    ensures Grown(db, r)
  {
  }

  lemma StartGrown(db: Tables, run: nat, path: string, title: string, r: Tables)
    requires Wf(db) && run in db.runs && r == TestStarted(db, run, path, title)
    ensures Grown(db, r)
  {
    var d := WithSpec(db, run, path);
    var s := Found(d, run, path);
    if !HasRow(d.tests, s, title) { OneGrown(d, d.tests + [Test(s, title, PENDING, [])], s); }
    SpecGrown(db, run, path, d, r);
  }

  lemma EndGrown(db: Tables, run: nat, path: string, title: string, o: Outcome, r: Tables)
    requires Wf(db) && run in db.runs && r == TestEnded(db, run, path, title, o)
    ensures Grown(db, r)
  {
    var d := WithSpec(db, run, path);
    var s := Found(d, run, path);
    OneGrown(d, Ended(d.tests, s, title, o), s);
    SpecGrown(db, run, path, d, r);
  }

  lemma ShotRowGrown(db: Tables, run: nat, path: string, title: string, key: string, d: Tables, s: nat, r: Tables)
    requires Wf(db) && run in db.runs && d == WithSpec(db, run, path) && s == Found(d, run, path)
    requires r == Refreshed(WithTests(d, WithShotRow(d.tests, s, title, key)), s)
    ensures Grown(db, r)
  {
    OneGrown(d, WithShotRow(d.tests, s, title, key), s);
    SpecGrown(db, run, path, d, r);
  }

  lemma ShotGrown(db: Tables, run: nat, path: string, title: string, key: string, r: Tables)
    requires Wf(db) && r == ShotPosted(db, run, path, title, key)
    ensures Grown(db, r)
  {
    var found := SpecAt(db.specs, run, path);
    if !(found.Some? && ShotLands(db.tests, found.value, title, key)) && run in db.runs {
      var d := WithSpec(db, run, path);
      ShotRowGrown(db, run, path, title, key, d, Found(d, run, path), r);
    }
  }

  lemma AbortGrown(db: Tables, run: nat, error: string, r: Tables)
    requires Wf(db) && r == Aborted(db, run, error)
    ensures Grown(db, r)
  {
    AbortedIds(db, run);
    RefreshedGrown(WithTests(db, WithAborted(db, run, error)), AbortedSpecs(db, run, |db.tests|));
  }

  lemma SummaryGrown(db: Tables, run: nat, path: string, stats: Stats, r: Tables)
    requires Wf(db) && r == SpecFinished(db, run, path, stats)
    ensures Grown(db, r)
  {
  }

  /** Events neither take a row nor a spec away. */
  lemma EventGrown(db: Tables, q: Query, r: Tables)
    requires Wf(db) && r == Handle(db, q)
    ensures Grown(db, r)
  {
    match q
    case Abort(run, error) => AbortGrown(db, run, error, r);
    case StartTest(run, path, title) => if run in db.runs { StartGrown(db, run, path, title, r); }
    case EndTest(run, path, title, o) => if run in db.runs { EndGrown(db, run, path, title, o, r); }
    case Shot(run, path, title, key) => ShotGrown(db, run, path, title, key, r);
    case EndSpec(run, path, stats) => SummaryGrown(db, run, path, stats, r);
    case _ =>
  }

  lemma RowsStayGrown(a: Tables, b: Tables, s: nat)
    requires Grown(a, b) && HasTests(a.tests, s)
    ensures HasTests(b.tests, s)
  {
    var i :| 0 <= i < |a.tests| && a.tests[i].spec == s;
    assert b.tests[i].spec == s;
  }

  /** After any events, a spec that has no row, and so never had one, holds the last summary sent for it; without one,
      the counters it had. */
  lemma {:induction false} LastSummaryHolds(db: Tables, events: seq<Query>, s: nat)
    requires Wf(db) && s < |db.specs|
    ensures var r, spec := Process(db, events), db.specs[s];
            && Grown(db, r)
            && (!HasTests(r.tests, s) ==>
                  Tells(r.specs[s].counts, spec.counts, LastSummary(db, events, spec.run, spec.path)))
  {
    if events != [] {
      var front, q := events[..|events| - 1], events[|events| - 1];
      var d, r := Process(db, front), Process(db, events);
      LastSummaryHolds(db, front, s);
      EventGrown(d, q, r);
      if !HasTests(r.tests, s) {
        if HasTests(d.tests, s) { RowsStayGrown(d, r, s); }
        SpecAtIs(d.specs, s);
        if q.EndSpec? && q.run == d.specs[s].run && q.path == d.specs[s].path {
          SummaryStored(d, q, s, r);
        } else {
          OtherEvent(d, q, s, r);
        }
      }
    }
  }
}
