// The ship-gate status of a run, read against the counters the live path recomputes.
module RunStatus {
  import opened LiveTables

  datatype ShipStatus = Ship | Hold | Unfinished | Killed

  /** "passed", "failed", "incomplete" and "aborted" of the source, in that order of the constructors. */
  function ClassifyRunStatus(run: Counts, aborted: bool, finished: bool): ShipStatus {
    if run.failed > 0 then Hold
    else if aborted then Killed
    else if !finished then Unfinished
    else if run.passed + run.skipped < run.total then Unfinished
    else Ship
  }

  /** Only the counters that add up make the last test a test for pending tests. */
  lemma ShipsWhenNothingIsPending(run: Counts, aborted: bool, finished: bool)
    requires Adds(run) && NonNegative(run)
    ensures ClassifyRunStatus(run, aborted, finished) == Ship
            <==> finished && !aborted && run.failed == 0 && run.pending == 0
  {
  }

  /** A failed test holds the run whatever else happened to it; an aborted run without one was killed; any other that
      has not finished, or has tests pending, is unfinished. */
  lemma StatusMeans(run: Counts, aborted: bool, finished: bool)
    requires Adds(run) && NonNegative(run)
    ensures ClassifyRunStatus(run, aborted, finished) == Hold <==> run.failed != 0
    ensures ClassifyRunStatus(run, aborted, finished) == Killed <==> run.failed == 0 && aborted
    ensures ClassifyRunStatus(run, aborted, finished) == Unfinished
            <==> run.failed == 0 && !aborted && (!finished || run.pending != 0)
  {
  }

  /** A row that keeps its run from shipping. */
  predicate Blocks(db: Tables, test: Test, run: nat)
    requires Wf(db) && test in db.tests
  {
    db.specs[test.spec].run == run && (test.outcome.status.Pending? || test.outcome.status.Failed?)
  }

  predicate NoneFailed(tests: seq<Test>, s: nat) {
    forall test :: test in tests && test.spec == s ==> !test.outcome.status.Failed?
  }

  lemma {:induction false} CountFailed(tests: seq<Test>, s: nat)
    ensures CountTests(tests, s).failed == 0 <==> NoneFailed(tests, s)
  {
    if tests != [] {
      var front, last := tests[..|tests| - 1], tests[|tests| - 1];
      CountFailed(front, s);
      CountAdds(front, s);
      InFrontOrLast(tests, front, last);
      assert NoneFailed(tests, s) <==> NoneFailed(front, s) && !(last.spec == s && last.outcome.status.Failed?);
    }
  }

  predicate AllClean(specs: seq<Spec>, run: nat) {
    forall i :: 0 <= i < |specs| && specs[i].run == run ==> Clean(specs[i].counts)
  }

  predicate AllAdd(specs: seq<Spec>) {
    forall i :: 0 <= i < |specs| ==> Adds(specs[i].counts) && NonNegative(specs[i].counts)
  }

  lemma AllCleanSplits(specs: seq<Spec>, front: seq<Spec>, last: Spec, run: nat)
    requires specs == front + [last]
    ensures AllClean(specs, run) <==> AllClean(front, run) && (last.run == run ==> Clean(last.counts))
  {
    assert forall i :: 0 <= i < |front| ==> front[i] == specs[i];
    assert specs[|front|] == last;
  }

  lemma AddClean(a: Counts, b: Counts, sum: Counts)
    requires NonNegative(a) && NonNegative(b) && sum == Add(a, b)
    ensures Clean(sum) <==> Clean(a) && Clean(b)
  {
  }

  /** A sum of counters is clean exactly when every one of them is. */
  lemma {:induction false} SumClean(specs: seq<Spec>, run: nat)
    requires AllAdd(specs)
    ensures Clean(SumSpecs(specs, run)) <==> AllClean(specs, run)
  {
    if specs != [] {
      var front, last := specs[..|specs| - 1], specs[|specs| - 1];
      assert specs == front + [last];
      SumClean(front, run);
      SumAdds(front, run);
      AllCleanSplits(specs, front, last, run);
      AddClean(SumSpecs(front, run), if last.run == run then last.counts else ZERO, SumSpecs(specs, run));
    }
  }

  predicate Clean(c: Counts) { c.failed == 0 && c.pending == 0 }

  /** A counted spec is clean exactly when none of its rows failed or is pending. */
  lemma SpecClean(db: Tables, s: nat)
    requires Wf(db) && s < |db.specs| && db.specs[s].counts == CountTests(db.tests, s)
    ensures Clean(db.specs[s].counts) <==> NonePending(db.tests, s) && NoneFailed(db.tests, s)
  {
    CountPending(db.tests, s);
    CountFailed(db.tests, s);
  }

  /** A spec nobody recorded rows for keeps its run from shipping through the counters of its summary. */
  predicate SummaryBlocks(db: Tables, s: nat, run: nat)
    requires s < |db.specs|
  {
    db.specs[s].run == run && !HasTests(db.tests, s) && !Clean(db.specs[s].counts)
  }

  /** With exact aggregates that add up, a run ships exactly when it finished, was not aborted, none of its test
      rows failed or is pending, and no summary without rows counts a failed or pending test. */
  lemma ShipsWhenNothingBlocks(db: Tables, run: nat, aborted: bool, finished: bool)
    requires Wf(db) && Exact(db) && run in db.runs
    requires AllAdd(db.specs)
    ensures ClassifyRunStatus(db.runs[run], aborted, finished) == Ship
            <==> finished && !aborted && (forall test :: test in db.tests ==> !Blocks(db, test, run))
                 && (forall s :: 0 <= s < |db.specs| ==> !SummaryBlocks(db, s, run))
  {
    assert RunExact(db, run);
    SumAdds(db.specs, run);
    SumClean(db.specs, run);
    ShipsWhenNothingIsPending(db.runs[run], aborted, finished);
    forall s | 0 <= s < |db.specs| && db.specs[s].run == run ensures Clean(db.specs[s].counts) <==> Unblocked(db, s, run) {
      assert SpecExact(db, s);
      RowsClean(db, s, run);
      if HasTests(db.tests, s) { SpecClean(db, s); }
    }
    CleanIsUnblocked(db, run);
  }

  predicate SomeFailed(specs: seq<Spec>, run: nat) {
    exists i :: 0 <= i < |specs| && specs[i].run == run && specs[i].counts.failed != 0
  }

  lemma {:induction false} SumFailed(specs: seq<Spec>, run: nat)
    requires AllAdd(specs)
    ensures SumSpecs(specs, run).failed >= 0 && (SumSpecs(specs, run).failed != 0 <==> SomeFailed(specs, run))
  {
    if specs != [] {
      var front, last := specs[..|specs| - 1], specs[|specs| - 1];
      assert specs == front + [last];
      SumFailed(front, run);
      SomeFailedSplits(specs, front, last, run);
    }
  }

  lemma SomeFailedSplits(specs: seq<Spec>, front: seq<Spec>, last: Spec, run: nat)
    requires specs == front + [last]
    ensures SomeFailed(specs, run) <==> SomeFailed(front, run) || (last.run == run && last.counts.failed != 0)
  {
    assert forall i :: 0 <= i < |front| ==> front[i] == specs[i];
    assert specs[|front|] == last;
  }

  /** A failed row of the run, or a failure counted by a summary without rows. */
  predicate Fails(db: Tables, run: nat)
    requires Wf(db)
  {
    || (exists test :: test in db.tests && db.specs[test.spec].run == run && test.outcome.status.Failed?)
    || (exists s :: 0 <= s < |db.specs| && db.specs[s].run == run && !HasTests(db.tests, s) && db.specs[s].counts.failed != 0)
  }

  lemma SomeFailedIs(db: Tables, run: nat)
    requires Wf(db) && (forall s :: 0 <= s < |db.specs| ==> SpecExact(db, s))
    ensures SomeFailed(db.specs, run) <==> Fails(db, run)
  {
    forall s: nat | s < |db.specs| && HasTests(db.tests, s)
      ensures db.specs[s].counts.failed == 0 <==> NoneFailed(db.tests, s)
    {
      assert SpecExact(db, s);
      CountFailed(db.tests, s);
    }
    if test :| test in db.tests && db.specs[test.spec].run == run && test.outcome.status.Failed? {
      assert !NoneFailed(db.tests, test.spec) && HasTests(db.tests, test.spec);
    } else if SomeFailed(db.specs, run) {
      var s :| 0 <= s < |db.specs| && db.specs[s].run == run && db.specs[s].counts.failed != 0;
      assert !HasTests(db.tests, s) || !NoneFailed(db.tests, s);
    }
  }

  /** With exact aggregates that add up, a run is held exactly when one of its test rows failed or a summary without
      rows counts a failure, however the run ended. */
  lemma HoldsWhenATestFailed(db: Tables, run: nat, aborted: bool, finished: bool)
    requires Wf(db) && Exact(db) && run in db.runs && AllAdd(db.specs)
    ensures ClassifyRunStatus(db.runs[run], aborted, finished) == Hold <==> Fails(db, run)
  {
    assert RunExact(db, run);
    SumAdds(db.specs, run);
    SumFailed(db.specs, run);
    StatusMeans(db.runs[run], aborted, finished);
    forall s | 0 <= s < |db.specs| ensures SpecExact(db, s) {}
    SomeFailedIs(db, run);
  }

  /** Neither a row of the spec nor its summary blocks. */
  predicate Unblocked(db: Tables, s: nat, run: nat)
    requires Wf(db) && s < |db.specs|
  {
    !SummaryBlocks(db, s, run) && forall test :: test in db.tests && test.spec == s ==> !Blocks(db, test, run)
  }

  lemma RowsClean(db: Tables, s: nat, run: nat)
    requires Wf(db) && s < |db.specs| && db.specs[s].run == run
    ensures NonePending(db.tests, s) && NoneFailed(db.tests, s)
            <==> forall test :: test in db.tests && test.spec == s ==> !Blocks(db, test, run)
  {
    if NonePending(db.tests, s) && NoneFailed(db.tests, s) {
      forall test | test in db.tests && test.spec == s ensures !Blocks(db, test, run) {
        assert !PendingRow(test, s);
      }
    } else if !NonePending(db.tests, s) {
      var test :| test in db.tests && PendingRow(test, s);
      assert Blocks(db, test, run);
    } else {
      var test :| test in db.tests && test.spec == s && test.outcome.status.Failed?;
      assert Blocks(db, test, run);
    }
  }

  lemma CleanIsUnblocked(db: Tables, run: nat)
    requires Wf(db)
    requires forall s :: 0 <= s < |db.specs| && db.specs[s].run == run ==> (Clean(db.specs[s].counts) <==> Unblocked(db, s, run))
    ensures AllClean(db.specs, run)
            <==> (forall test :: test in db.tests ==> !Blocks(db, test, run))
                 && (forall s :: 0 <= s < |db.specs| ==> !SummaryBlocks(db, s, run))
  {
    if test :| test in db.tests && Blocks(db, test, run) {
      assert db.specs[test.spec].run == run && !Unblocked(db, test.spec, run);
    } else if s :| 0 <= s < |db.specs| && SummaryBlocks(db, s, run) {
      assert !Unblocked(db, s, run);
    } else {
      forall s | 0 <= s < |db.specs| && db.specs[s].run == run ensures Unblocked(db, s, run) {}
    }
  }
}
