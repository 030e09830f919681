// The live tables as the handlers update them, each handler proved to leave what its event means.
module LiveStore {
  import opened Text
  import opened LiveTables
  import opened LiveRaces
  import opened LiveEvents
  import opened LiveSummary
  import LiveTells

  class LiveDb {
    var runs: map<nat, Counts>
    var specs: seq<Spec>
    var tests: seq<Test>

    function Now(): Tables
      reads this
    {
      Tables(runs, specs, tests)
    }

    ghost predicate Valid()
      reads this
    {
      Wf(Now())
    }

    constructor (run: nat)
      ensures Valid() && Now() == Tables(map[run := ZERO], [], [])
    {
      runs, specs, tests := map[run := ZERO], [], [];
    }

    /** The spec's id, created if need be; None when the run is gone. */
    method FindOrCreateSpec(run: nat, path: string) returns (id: Option<nat>)
      requires Valid()
      modifies `specs
      ensures Valid()
      ensures id.Some? <==> run in runs
      ensures run in runs ==> Now() == WithSpec(old(Now()), run, path) && id == SpecAt(specs, run, path)
      ensures run in runs ==> LiveTells.SpecThere(old(Now()), run, path, id.value, specs)
      ensures run !in runs ==> Now() == old(Now())
    {
      if run !in runs { return None; }
      id := SpecAt(specs, run, path);
      if id.None? {
        specs := specs + [Spec(run, path, ZERO)];
        assert specs[..|specs| - 1] == old(specs);
        id := Some(|specs| - 1);
      }
    }

    method RollupRunFromSpecs(run: nat)
      requires Valid()
      modifies `runs
      ensures Valid() && Now() == WithRollup(old(Now()), run)
    {
      if run in runs { runs := runs[run := SumSpecs(specs, run)]; }
    }

    method RecomputeSpecAndRunStats(s: nat)
      requires Valid() && s < |specs|
      modifies `specs, `runs
      ensures Valid() && Now() == Refreshed(old(Now()), s)
    {
      specs := specs[s := specs[s].(counts := CountTests(tests, s))];
      RollupRunFromSpecs(specs[s].run);
    }

    /** test.started: a pending row, only where the test has no row at all. */
    method UpsertPendingTest(run: nat, path: string, title: string)
      requires Valid()
      modifies this
      ensures Valid() && Now() == Handle(old(Now()), StartTest(run, path, title))
      ensures LiveTells.StartTells(old(Now()), run, path, title, Now())
    {
      LiveTells.StartTestTells(Now(), run, path, title, Handle(Now(), StartTest(run, path, title)));
      var id := FindOrCreateSpec(run, path);
      if id.None? { return; }
      if !HasRow(tests, id.value, title) {
        tests := tests + [Test(id.value, title, PENDING, [])];
        RecomputeSpecAndRunStats(id.value);
      }
    }

    /** test.passed, test.failed, test.skipped: every row of the test rewritten, or its first row inserted. */
    method InsertLiveTestResult(run: nat, path: string, title: string, o: Outcome)
      requires Valid()
      modifies this
      ensures Valid() && Now() == Handle(old(Now()), EndTest(run, path, title, o))
      ensures LiveTells.EndTells(old(Now()), run, path, title, o, Now())
    {
      LiveTells.EndTestTells(Now(), run, path, title, o, Handle(Now(), EndTest(run, path, title, o)));
      var id := FindOrCreateSpec(run, path);
      if id.None? { return; }
      var updated := HasRow(tests, id.value, title);
      tests := WithOutcome(tests, id.value, title, o);
      if !updated {
        NoRowNoChange(old(tests), id.value, title, o);
        tests := tests + [Test(id.value, title, o, [])];
      }
      RecomputeSpecAndRunStats(id.value);
    }

    /** spec.finished. */
    method UpdateLiveSpecStats(run: nat, path: string, stats: Stats)
      requires Valid()
      modifies `specs, `runs
      ensures Valid() && Now() == Handle(old(Now()), EndSpec(run, path, stats))
      ensures LiveTells.SpecEndTells(old(Now()), run, path, stats, Now())
      ensures var s := SpecAt(old(specs), run, path);
              s.Some? && !HasTests(old(tests), s.value) ==> HoldsStats(specs[s.value].counts, old(specs)[s.value].counts, stats)
    {
      LiveTells.EndSpecTells(Now(), run, path, stats, Handle(Now(), EndSpec(run, path, stats)));
      var s := SpecAt(specs, run, path);
      if s.Some? && HasTests(tests, s.value) {
        RecomputeSpecAndRunStats(s.value);
        return;
      }
      if s.Some? {
        specs := specs[s.value := specs[s.value].(counts := Summarised(specs[s.value].counts, stats))];
      }
      RollupRunFromSpecs(run);
    }

    /** Link the file to the rows of its title; false when there was no row to change. */
    method LinkScreenshot(s: nat, title: string, key: string) returns (updated: bool)
      requires Valid()
      modifies `tests
      ensures Valid() && updated == ShotLands(old(tests), s, title, key)
      ensures Now() == WithTests(old(Now()), if updated then WithShot(old(tests), s, title, key) else old(tests))
    {
      updated := ShotLands(tests, s, title, key);
      if !updated { NoMatchNoChange(tests, s, title, key); }
      tests := WithShot(tests, s, title, key);
    }

    method PostScreenshot(run: nat, path: string, title: string, key: string)
      requires Valid()
      modifies this
      ensures Valid() && Now() == Handle(old(Now()), Shot(run, path, title, key))
    {
      var s := SpecAt(specs, run, path);
      if s.Some? {
        var updated := LinkScreenshot(s.value, title, key);
        if updated { return; }
      }
      var id := FindOrCreateSpec(run, path);
      if id.Some? {
        tests := WithShotRow(tests, id.value, title, key);
        RecomputeSpecAndRunStats(id.value);
      }
    }

    method RecomputeEach(affected: seq<nat>)
      requires Valid() && SpecIds(Now(), affected)
      modifies `specs, `runs
      ensures Valid() && Now() == RefreshedAll(old(Now()), affected)
    {
      ghost var db := Now();
      assert affected[..0] == [];
      var i := 0;
      while i < |affected|
        invariant i <= |affected| && Valid() && |specs| == |db.specs|
        invariant Now() == RefreshedAll(db, affected[..i])
      {
        RefreshedNext(db, affected, i);
        RecomputeSpecAndRunStats(affected[i]);
        i := i + 1;
      }
      assert affected[..i] == affected;
    }

    /** Pending rows of the run become skipped; each spec that had one is refreshed once. */
    method TransitionPendingTestsAfterAbort(run: nat, error: string)
      requires Valid()
      modifies this
      ensures Valid() && Now() == Handle(old(Now()), Abort(run, error))
    {
      var affected := AbortedSpecs(Now(), run, |tests|);
      AbortedIds(Now(), run);
      tests := WithAborted(Now(), run, error);
      RecomputeEach(affected);
    }
  }

  lemma RefreshedNext(db: Tables, specs: seq<nat>, n: nat)
    requires Wf(db) && SpecIds(db, specs) && n < |specs|
    ensures RefreshedAll(db, specs[..n + 1]) == Refreshed(RefreshedAll(db, specs[..n]), specs[n])
  {
    assert specs[..n + 1][..n] == specs[..n];
  }

  // ---------------------------------------------------------------- exactness, handler by handler

  lemma RefreshedExact(db: Tables, tests: seq<Test>, s: nat, r: Tables)
    requires Wf(db) && Exact(db) && s < |db.specs| && |db.tests| <= |tests|
    requires forall i :: 0 <= i < |tests| ==> tests[i].spec < |db.specs|
    requires forall t :: 0 <= t < |db.specs| && t != s ==> SameCounted(db.tests, tests, t)
    requires r == Refreshed(WithTests(db, tests), s)
    ensures Exact(r)
  {
    forall t | 0 <= t < |r.specs| ensures SpecExact(r, t) {
      if t != s { assert SpecExact(db, t) && SameCounted(db.tests, tests, t); }
    }
    forall run | run in r.runs ensures RunExact(r, run) {
      if run != db.specs[s].run {
        assert RunExact(db, run);
        SumOther(db.specs, s, CountTests(tests, s), run);
      }
    }
  }

  lemma WithSpecExact(db: Tables, run: nat, path: string, d: Tables)
    requires Wf(db) && Exact(db) && run in db.runs && d == WithSpec(db, run, path)
    ensures Exact(d)
  {
    forall s | 0 <= s < |d.specs| ensures SpecExact(d, s) {
      if s < |db.specs| { assert SpecExact(db, s); } else { assert !HasTests(db.tests, s); }
    }
    forall r | r in d.runs ensures RunExact(d, r) {
      assert RunExact(db, r);
      SumWithSpec(db, run, path, r);
    }
  }

  /** Rows appended to or rewritten for one spec leave every other spec counting the same. */
  lemma OthersCounted(db: Tables, s: nat, q: Query, tests: seq<Test>)
    requires Wf(db) && s < |db.specs| && (q.PutPending? || q.UpdateRow? || q.PutRow? || q.PutShot?) && q.s == s
    requires tests == After(db, q).tests
    ensures forall t :: 0 <= t < |db.specs| && t != s ==> SameCounted(db.tests, tests, t)
  {
    forall t | 0 <= t < |db.specs| && t != s ensures SameCounted(db.tests, tests, t) {
      RowsChange(db, q, t);
      SameCountedSelf(db.tests, t);
    }
  }

  lemma SameCountedSelf(tests: seq<Test>, s: nat)
    ensures SameCounted(tests, tests, s)
  {
  }

  lemma StartTestExact(d: Tables, s: nat, title: string, r: Tables)
    requires Wf(d) && Exact(d) && s < |d.specs| && !HasRow(d.tests, s, title)
    requires r == Refreshed(WithTests(d, d.tests + [Test(s, title, PENDING, [])]), s)
    ensures Exact(r)
  {
    var tests := d.tests + [Test(s, title, PENDING, [])];
    OthersCounted(d, s, PutPending(s, title), tests);
    RefreshedExact(d, tests, s, r);
  }

  lemma EndTestExact(d: Tables, s: nat, title: string, o: Outcome, r: Tables)
    requires Wf(d) && Exact(d) && s < |d.specs|
    requires r == Refreshed(WithTests(d, Ended(d.tests, s, title, o)), s)
    ensures Exact(r)
  {
    var tests := Ended(d.tests, s, title, o);
    OthersCounted(d, s, if HasRow(d.tests, s, title) then UpdateRow(s, title, o) else PutRow(s, title, o), tests);
    RefreshedExact(d, tests, s, r);
  }

  lemma TestEventExact(db: Tables, q: Query)
    requires Wf(db) && Exact(db) && (q.StartTest? || q.EndTest?) && q.run in db.runs
    ensures Exact(Handle(db, q))
  {
    var d := WithSpec(db, q.run, q.path);
    var s := Found(d, q.run, q.path);
    WithSpecExact(db, q.run, q.path, d);
    if q.EndTest? { EndTestExact(d, s, q.title, q.o, Handle(db, q)); }
    else if !HasRow(d.tests, s, q.title) { StartTestExact(d, s, q.title, Handle(db, q)); }
  }

  lemma SummaryExact(db: Tables, q: Query)
    requires Wf(db) && Exact(db) && q.EndSpec?
    ensures Exact(Handle(db, q))
  {
    var s, r := SpecAt(db.specs, q.run, q.path), Handle(db, q);
    if s.Some? && HasTests(db.tests, s.value) {
      forall t | 0 <= t < |db.specs| && t != s.value ensures SameCounted(db.tests, db.tests, t) {
        SameCountedSelf(db.tests, t);
      }
      RefreshedExact(db, db.tests, s.value, r);
    } else {
      forall t | 0 <= t < |r.specs| ensures SpecExact(r, t) { assert SpecExact(db, t); }
      forall run | run in r.runs ensures RunExact(r, run) {
        if run != q.run {
          assert RunExact(db, run);
          if s.Some? { SumOther(db.specs, s.value, Summarised(db.specs[s.value].counts, q.stats), run); }
        }
      }
    }
  }

  /** Linking a file to rows changes no count. */
  lemma LandedExact(db: Tables, s: nat, title: string, key: string, r: Tables)
    requires Wf(db) && Exact(db) && r == WithTests(db, WithShot(db.tests, s, title, key))
    ensures Exact(r)
  {
    forall t | 0 <= t < |db.specs| ensures SpecExact(r, t) {
      SameRows(db.tests, r.tests, t);
      assert SpecExact(db, t);
    }
    forall run | run in r.runs ensures RunExact(r, run) { assert RunExact(db, run); }
  }

  lemma ShotRowExact(d: Tables, s: nat, title: string, key: string, r: Tables)
    requires Wf(d) && Exact(d) && s < |d.specs|
    requires r == Refreshed(WithTests(d, WithShotRow(d.tests, s, title, key)), s)
    ensures Exact(r)
  {
    var tests := WithShotRow(d.tests, s, title, key);
    OthersCounted(d, s, PutShot(s, title, key), tests);
    RefreshedExact(d, tests, s, r);
  }

  lemma ShotExact(db: Tables, q: Query)
    requires Wf(db) && Exact(db) && q.Shot?
    ensures Exact(Handle(db, q))
  {
    var s := SpecAt(db.specs, q.run, q.path);
    if s.Some? && ShotLands(db.tests, s.value, q.title, q.key) {
      LandedExact(db, s.value, q.title, q.key, Handle(db, q));
    } else if q.run in db.runs {
      var d := WithSpec(db, q.run, q.path);
      WithSpecExact(db, q.run, q.path, d);
      ShotRowExact(d, Found(d, q.run, q.path), q.title, q.key, Handle(db, q));
    }
  }

  /** Rows of these specs may have changed; all others, and all runs, are exact. */
  predicate ExactBut(db: Tables, specs: seq<nat>) {
    && Wf(db)
    && (forall s :: 0 <= s < |db.specs| && s !in specs ==> SpecExact(db, s))
    && (forall run :: run in db.runs ==> RunExact(db, run))
  }

  lemma RefreshOne(db: Tables, specs: seq<nat>, s: nat, rest: seq<nat>, r: Tables)
    requires ExactBut(db, specs) && s < |db.specs| && r == Refreshed(db, s)
    requires forall t :: t in specs && t != s ==> t in rest
    ensures ExactBut(r, rest)
  {
    forall t | 0 <= t < |r.specs| && t !in rest ensures SpecExact(r, t) {
      if t != s { assert SpecExact(db, t); }
    }
    forall run | run in r.runs ensures RunExact(r, run) {
      if run != db.specs[s].run {
        assert RunExact(db, run);
        SumOther(db.specs, s, CountTests(db.tests, s), run);
      }
    }
  }

  lemma {:induction false} RefreshAll(db: Tables, specs: seq<nat>, n: nat)
    requires ExactBut(db, specs) && n <= |specs| && SpecIds(db, specs)
    ensures ExactBut(RefreshedAll(db, specs[..n]), specs[n..])
  {
    if n == 0 {
      assert specs[0..] == specs;
    } else {
      RefreshAll(db, specs, n - 1);
      assert specs[..n][..n - 1] == specs[..n - 1];
      assert specs[n - 1..] == [specs[n - 1]] + specs[n..];
      RefreshOne(RefreshedAll(db, specs[..n - 1]), specs[n - 1..], specs[n - 1], specs[n..], RefreshedAll(db, specs[..n]));
    }
  }

  lemma AbortedExactBut(db: Tables, run: nat, error: string, d: Tables, affected: seq<nat>)
    requires Wf(db) && Exact(db) && affected == AbortedSpecs(db, run, |db.tests|)
    requires d == WithTests(db, WithAborted(db, run, error))
    ensures ExactBut(d, affected)
  {
    forall s | 0 <= s < |d.specs| && s !in affected ensures SpecExact(d, s) {
      SameRows(db.tests, d.tests, s);
      assert SpecExact(db, s);
    }
    forall r | r in d.runs ensures RunExact(d, r) { assert RunExact(db, r); }
  }

  lemma AbortExact(db: Tables, run: nat, error: string, r: Tables)
    requires Wf(db) && Exact(db) && r == Aborted(db, run, error)
    ensures Exact(r)
  {
    var affected := AbortedSpecs(db, run, |db.tests|);
    var d := WithTests(db, WithAborted(db, run, error));
    AbortedIds(db, run);
    AbortedExactBut(db, run, error, d, affected);
    RefreshAll(d, affected, |affected|);
    assert affected[..|affected|] == affected;
  }

  /** After the transition no row of the run is pending, and the aggregates are exact again. */
  lemma AbortLeavesNothingPending(db: Tables, run: nat, error: string, r: Tables)
    requires Wf(db) && Exact(db) && r == Handle(db, Abort(run, error))
    ensures Exact(r) && forall i :: 0 <= i < |r.tests| ==> r.tests[i].spec < |r.specs| && !PendingOf(r, run, r.tests[i])
  {
    AbortExact(db, run, error, r);
    var d := WithTests(db, WithAborted(db, run, error));
    AbortedIds(db, run);
    forall i | 0 <= i < |r.tests| ensures !PendingOf(r, run, r.tests[i]) {
      RefreshKeepsRuns(d, AbortedSpecs(db, run, |db.tests|), r.tests[i].spec);
    }
  }

  lemma {:induction false} RefreshKeepsRuns(db: Tables, specs: seq<nat>, s: nat)
    requires Wf(db) && SpecIds(db, specs) && s < |db.specs|
    ensures RefreshedAll(db, specs).specs[s].run == db.specs[s].run
  {
    if specs != [] {
      RefreshKeepsRuns(db, specs[..|specs| - 1], s);
    }
  }

  /** Every handler, run to its end, keeps the aggregates exact: summaries and screenshots included. */
  lemma HandlersKeepExact(db: Tables, q: Query)
    requires Wf(db) && Exact(db) && Arrives(q)
    ensures Exact(Handle(db, q))
  {
    match q
    case StartSpec(run, path) => if run in db.runs { WithSpecExact(db, run, path, Handle(db, q)); }
    case StartTest(run, _, _) => if run in db.runs { TestEventExact(db, q); }
    case EndTest(run, _, _, _) => if run in db.runs { TestEventExact(db, q); }
    case EndSpec(_, _, _) => SummaryExact(db, q);
    case Shot(_, _, _, _) => ShotExact(db, q);
    case Abort(run, error) => AbortExact(db, run, error, Handle(db, q));
  }
}
