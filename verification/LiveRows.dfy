// One row per test: what keeps it so, and the one upload that does not.
module LiveRows {
  import opened Text
  import opened LiveTables
  import opened LiveRaces
  import opened LiveEvents
  import opened LiveReplay

  /** At most one row per (spec, full_title). */
  predicate UniqueRows(tests: seq<Test>) {
    forall i, j :: 0 <= i < j < |tests| ==> tests[i].spec != tests[j].spec || tests[i].title != tests[j].title
  }

  lemma UniqueSameKeys(a: seq<Test>, b: seq<Test>)
    requires UniqueRows(a) && |a| == |b|
    requires forall i :: 0 <= i < |a| ==> a[i].spec == b[i].spec && a[i].title == b[i].title
    ensures UniqueRows(b)
  {
  }

  lemma UniqueAppend(tests: seq<Test>, row: Test)
    requires UniqueRows(tests)
    ensures UniqueRows(tests + [row]) <==> !HasRow(tests, row.spec, row.title)
  {
    var more := tests + [row];
    assert more[|tests|] == row;
    if HasRow(tests, row.spec, row.title) {
      var i :| 0 <= i < |tests| && Keyed(tests[i], row.spec, row.title);
      assert more[i] == tests[i];
    } else {
      forall i, j | 0 <= i < j < |more| ensures more[i].spec != more[j].spec || more[i].title != more[j].title {
        assert !Keyed(tests[i], row.spec, row.title);
        assert more[i] == tests[i];
        if j < |tests| { assert more[j] == tests[j]; }
      }
    }
  }

  /** Events never make a second row for a test. */
  lemma EventKeepsUnique(db: Tables, q: Query)
    requires Wf(db) && Replayable(q) && UniqueRows(db.tests)
    ensures UniqueRows(Handle(db, q).tests)
  {
    if q.run in db.runs && !q.StartSpec? {
      var d := WithSpec(db, q.run, q.path);
      var s := Found(d, q.run, q.path);
      if q.StartTest? {
        UniqueAppend(d.tests, Test(s, q.title, PENDING, []));
      } else {
        UniqueAppend(d.tests, Test(s, q.title, q.o, []));
        UniqueSameKeys(d.tests, WithOutcome(d.tests, s, q.title, q.o));
      }
    }
  }

  lemma {:induction false} BatchKeepsUnique(db: Tables, batch: seq<Query>)
    requires Wf(db) && AllReplayable(batch) && UniqueRows(db.tests)
    ensures UniqueRows(Process(db, batch).tests)
  {
    if batch != [] {
      var front, q := batch[..|batch| - 1], batch[|batch| - 1];
      assert q in batch && batch == front + [q];
      BatchKeepsUnique(db, front);
      EventKeepsUnique(Process(db, front), q);
    }
  }

  /** Each test that ended in a batch has exactly one row afterwards, and it holds the last outcome. */
  lemma OneRowLastOutcome(db: Tables, batch: seq<Query>, run: nat, path: string, title: string)
    requires Wf(db) && AllReplayable(batch) && UniqueRows(db.tests) && run in db.runs
    requires LastOutcome(batch, run, path, title).Some?
    ensures var r := Process(db, batch); var s := SpecAt(r.specs, run, path);
            && s.Some? && HasRow(r.tests, s.value, title) && UniqueRows(r.tests)
            && forall i :: 0 <= i < |r.tests| && Keyed(r.tests[i], s.value, title) ==>
                 r.tests[i].outcome == LastOutcome(batch, run, path, title).value
  {
    var r := Process(db, batch);
    BatchKeepsUnique(db, batch);
    Saturates(db, batch);
    LastIsThere(batch, run, path, title);
    RunsKept(db, batch);
    assert Present(r, EndTest(run, path, title, LastOutcome(batch, run, path, title).value));
    BatchTold(db, batch);
    var s := SpecAt(r.specs, run, path).value;
    forall i | 0 <= i < |r.tests| && Keyed(r.tests[i], s, title)
      ensures r.tests[i].outcome == LastOutcome(batch, run, path, title).value
    {
      assert Last(batch, r, r.tests[i]) == LastOutcome(batch, run, path, title);
    }
  }

  lemma {:induction false} RunsKept(db: Tables, batch: seq<Query>)
    requires Wf(db) && AllReplayable(batch)
    ensures Process(db, batch).runs.Keys == db.runs.Keys
  {
    if batch != [] {
      var front, q := batch[..|batch| - 1], batch[|batch| - 1];
      assert q in batch && batch == front + [q];
      RunsKept(db, front);
      assert Handle(Process(db, front), q).runs.Keys == Process(db, front).runs.Keys;
    }
  }

  /** A test.started for a test that has a row, whatever its status, changes nothing at all. */
  lemma LateStartChangesNothing(db: Tables, run: nat, path: string, title: string)
    requires Wf(db) && SpecAt(db.specs, run, path).Some? && HasRow(db.tests, Found(db, run, path), title)
    ensures Handle(db, StartTest(run, path, title)) == db
  {
  }

  // ---------------------------------------------------------------- screenshots

  /** An upload makes a second row for its test if and only if the test already has a row, that row is not
      pending, and the update found nothing to change: every row of that title already holds the file. */
  lemma ScreenshotDuplicatesIff(db: Tables, run: nat, path: string, title: string, key: string)
    requires Wf(db) && UniqueRows(db.tests) && run in db.runs
    ensures UniqueRows(Handle(db, Shot(run, path, title, key)).tests)
            <==> !DuplicatesRow(db, run, path, title, key)
  {
    var s0 := SpecAt(db.specs, run, path);
    if s0.Some? && ShotLands(db.tests, s0.value, title, key) {
      UniqueSameKeys(db.tests, WithShot(db.tests, s0.value, title, key));
    } else {
      var d := WithSpec(db, run, path);
      var s := Found(d, run, path);
      if HasPending(d.tests, s, title) {
        UniqueSameKeys(d.tests, WithShotRow(d.tests, s, title, key));
      } else {
        UniqueAppend(d.tests, Test(s, title, PENDING, [key]));
        if s0.None? { NewSpecHasNoRow(db, run, path, s, title); }
      }
    }
  }

  predicate DuplicatesRow(db: Tables, run: nat, path: string, title: string, key: string)
    requires Wf(db)
  {
    var s := SpecAt(db.specs, run, path);
    s.Some? && HasRow(db.tests, s.value, title) && !HasPending(db.tests, s.value, title)
    && !ShotLands(db.tests, s.value, title, key)
  }

  lemma NewSpecHasNoRow(db: Tables, run: nat, path: string, s: nat, title: string)
    requires Wf(db) && run in db.runs && SpecAt(db.specs, run, path).None?
    requires SpecAt(WithSpec(db, run, path).specs, run, path) == Some(s)
    ensures !HasRow(db.tests, s, title)
  {
    assert s >= |db.specs|;
  }

  /** In particular: once a test has ended, uploading the same file for it twice makes a second, pending row. */
  lemma SecondUploadDuplicates(db: Tables, run: nat, path: string, title: string, key: string)
    requires Wf(db) && UniqueRows(db.tests) && run in db.runs && SpecAt(db.specs, run, path).Some?
    requires var s := Found(db, run, path); HasRow(db.tests, s, title) && !HasPending(db.tests, s, title)
    ensures var once := Handle(db, Shot(run, path, title, key));
            !UniqueRows(once.tests) || !UniqueRows(Handle(once, Shot(run, path, title, key)).tests)
  {
    var s := Found(db, run, path);
    var once := Handle(db, Shot(run, path, title, key));
    ScreenshotDuplicatesIff(db, run, path, title, key);
    if ShotLands(db.tests, s, title, key) {
      LandedOnce(db.tests, s, title, key);
      ScreenshotDuplicatesIff(once, run, path, title, key);
    }
  }

  lemma LandedOnce(tests: seq<Test>, s: nat, title: string, key: string)
    requires HasRow(tests, s, title) && !HasPending(tests, s, title)
    ensures var r := WithShot(tests, s, title, key);
            HasRow(r, s, title) && !HasPending(r, s, title) && !ShotLands(r, s, title, key)
  {
    var r := WithShot(tests, s, title, key);
    var i :| 0 <= i < |tests| && Keyed(tests[i], s, title);
    assert Keyed(r[i], s, title);
    forall j | 0 <= j < |r| && Keyed(r[j], s, title) ensures !r[j].outcome.status.Pending? {
      assert Keyed(tests[j], s, title);
    }
  }
}
