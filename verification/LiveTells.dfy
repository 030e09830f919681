// What one event leaves in the live tables, row by row: which test rows are made or changed and how,
// which specs are counted anew, and that everything else stays.
module LiveTells {
  import opened Text
  import opened LiveTables
  import opened LiveRaces
  import opened LiveEvents

  // ---------------------------------------------------------------- specs and their sums

  /** Spec s is the run's spec of that path; it is new, without counts, exactly if there was none before. */
  predicate SpecThere(db: Tables, run: nat, path: string, s: nat, specs: seq<Spec>) {
    && s < |specs| && specs[s].run == run && specs[s].path == path
    && if exists i :: 0 <= i < |db.specs| && db.specs[i].run == run && db.specs[i].path == path
       then specs == db.specs
       else s == |db.specs| && specs == db.specs + [Spec(run, path, Counts(0, 0, 0, 0, 0, 0))]
  }

  lemma SpecMade(db: Tables, run: nat, path: string, d: Tables) returns (s: nat)
    requires Wf(db) && run in db.runs && d == WithSpec(db, run, path)
    ensures SpecThere(db, run, path, s, d.specs) && SpecAt(d.specs, run, path) == Some(s)
    ensures d.tests == db.tests && d.runs == db.runs
  {
    s := SpecAt(d.specs, run, path).value;
  }

  /** What a run's specs sum to in one counter. */
  function SumOf(specs: seq<Spec>, run: nat, counter: Counts -> int): int {
    if specs == [] then 0
    else
      SumOf(specs[..|specs| - 1], run, counter) + if specs[|specs| - 1].run == run then counter(specs[|specs| - 1].counts) else 0
  }

  /** Each counter of a run is the sum of that counter over its specs. */
  predicate SumsUp(counts: Counts, specs: seq<Spec>, run: nat) {
    && counts.total == SumOf(specs, run, (c: Counts) => c.total) && counts.passed == SumOf(specs, run, (c: Counts) => c.passed)
    && counts.failed == SumOf(specs, run, (c: Counts) => c.failed) && counts.skipped == SumOf(specs, run, (c: Counts) => c.skipped)
    && counts.pending == SumOf(specs, run, (c: Counts) => c.pending)
    && counts.duration == SumOf(specs, run, (c: Counts) => c.duration)
  }

  lemma {:induction false} SumIsSums(specs: seq<Spec>, run: nat)
    ensures SumsUp(SumSpecs(specs, run), specs, run)
  {
    if specs != [] { SumIsSums(specs[..|specs| - 1], run); }
  }

  /** One spec is counted from its rows, and its run, if it is there, summed from its specs; nothing else changes. */
  predicate CountedAnew(d: Tables, s: nat, c: Tables)
    requires s < |d.specs|
  {
    && c.tests == d.tests
    && c.specs == d.specs[s := Spec(d.specs[s].run, d.specs[s].path, CountTests(d.tests, s))]
    && SummedAnew(d, d.specs[s].run, c)
  }

  predicate SummedAnew(d: Tables, run: nat, c: Tables) {
    if run in d.runs then c.runs == d.runs[run := SumSpecs(c.specs, run)] else c.runs == d.runs
  }

  lemma RefreshTells(d: Tables, s: nat, c: Tables)
    requires Wf(d) && s < |d.specs| && c == Refreshed(d, s)
    ensures CountedAnew(d, s, c)
  {
  }

  // ---------------------------------------------------------------- a test starts

  predicate RowThere(tests: seq<Test>, s: nat, title: string) {
    exists i :: 0 <= i < |tests| && tests[i].spec == s && tests[i].title == title
  }

  lemma HasRowIff(tests: seq<Test>, s: nat, title: string)
    ensures HasRow(tests, s, title) <==> RowThere(tests, s, title)
  {
    if HasRow(tests, s, title) {
      var i :| 0 <= i < |tests| && Keyed(tests[i], s, title);
      assert tests[i].spec == s;
    }
    if RowThere(tests, s, title) {
      var i :| 0 <= i < |tests| && tests[i].spec == s && tests[i].title == title;
      assert Keyed(tests[i], s, title);
    }
  }

  /** A test that has a row keeps it as it is; one that has none gets a pending row without time, error or file. */
  ghost predicate StartTells(db: Tables, run: nat, path: string, title: string, c: Tables) {
    if run !in db.runs then c == db
    else exists s: nat, d: Tables :: StartedIn(db, run, path, title, s, d, c)
  }

  predicate StartedIn(db: Tables, run: nat, path: string, title: string, s: nat, d: Tables, c: Tables) {
    && SpecThere(db, run, path, s, d.specs) && d.runs == db.runs
    && if RowThere(db.tests, s, title) then d.tests == db.tests && c == d
       else d.tests == db.tests + [Test(s, title, Outcome(Pending, 0, None), [])] && CountedAnew(d, s, c)
  }

  lemma StartTestTells(db: Tables, run: nat, path: string, title: string, c: Tables)
    requires Wf(db) && c == Handle(db, StartTest(run, path, title))
    ensures StartTells(db, run, path, title, c)
  {
    if run in db.runs {
      var d := WithSpec(db, run, path);
      var s := SpecMade(db, run, path, d);
      HasRowIff(d.tests, s, title);
      if HasRow(d.tests, s, title) {
        assert StartedIn(db, run, path, title, s, d, c);
      } else {
        var e := WithTests(d, d.tests + [Test(s, title, PENDING, [])]);
        RefreshTells(e, s, c);
        assert StartedIn(db, run, path, title, s, e, c);
      }
    }
  }

  // ---------------------------------------------------------------- a test ends

  /** The rows of the test hold the outcome, keeping their files; every other row is as it was. */
  predicate RowsHold(before: seq<Test>, s: nat, title: string, o: Outcome, after: seq<Test>) {
    && |after| == |before|
    && forall i :: 0 <= i < |before| ==>
         after[i] == if before[i].spec == s && before[i].title == title then Test(s, title, o, before[i].shots) else before[i]
  }

  ghost predicate EndTells(db: Tables, run: nat, path: string, title: string, o: Outcome, c: Tables) {
    if run !in db.runs then c == db
    else exists s: nat, d: Tables :: EndedIn(db, run, path, title, o, s, d, c)
  }

  /** Every row of the test holds its outcome, and a test without a row gets one that does. */
  predicate EndedIn(db: Tables, run: nat, path: string, title: string, o: Outcome, s: nat, d: Tables, c: Tables) {
    && SpecThere(db, run, path, s, d.specs) && d.runs == db.runs && CountedAnew(d, s, c)
    && if RowThere(db.tests, s, title) then RowsHold(db.tests, s, title, o, d.tests)
       else d.tests == db.tests + [Test(s, title, o, [])]
  }

  lemma EndTestTells(db: Tables, run: nat, path: string, title: string, o: Outcome, c: Tables)
    requires Wf(db) && c == Handle(db, EndTest(run, path, title, o))
    ensures EndTells(db, run, path, title, o, c)
  {
    if run in db.runs {
      var d := WithSpec(db, run, path);
      var s := SpecMade(db, run, path, d);
      HasRowIff(d.tests, s, title);
      var e := WithTests(d, Ended(d.tests, s, title, o));
      RefreshTells(e, s, c);
      assert EndedIn(db, run, path, title, o, s, e, c);
    }
  }

  // ---------------------------------------------------------------- a spec ends

  /** Rows, where there are any, are counted; the summary of a spec without rows is believed, its four numbers under
      their names; an unknown spec is not made. */
  ghost predicate SpecEndTells(db: Tables, run: nat, path: string, stats: Stats, c: Tables) {
    && c.tests == db.tests
    && if s: nat :| s < |db.specs| && db.specs[s].run == run && db.specs[s].path == path then
         if exists i :: 0 <= i < |db.tests| && db.tests[i].spec == s then CountedAnew(db, s, c)
         else Believed(db, s, stats, c)
       else c.specs == db.specs && SummedAnew(db, run, c)
  }

  predicate Believed(db: Tables, s: nat, stats: Stats, c: Tables)
    requires s < |db.specs|
  {
    var was := db.specs[s];
    && c.specs == db.specs[s := Spec(was.run, was.path,
         Counts(stats.total, stats.passed, stats.failed, stats.skipped, was.counts.pending, was.counts.duration))]
    && SummedAnew(db, was.run, c)
  }

  lemma EndSpecTells(db: Tables, run: nat, path: string, stats: Stats, c: Tables)
    requires Wf(db) && c == Handle(db, EndSpec(run, path, stats))
    ensures SpecEndTells(db, run, path, stats, c)
  {
    if s: nat :| s < |db.specs| && db.specs[s].run == run && db.specs[s].path == path {
      assert SpecAt(db.specs, run, path) == Some(s);
      if HasTests(db.tests, s) { RefreshTells(db, s, c); }
    } else {
      assert SpecAt(db.specs, run, path).None?;
    }
  }

  // ---------------------------------------------------------------- a screenshot arrives

  lemma EndsWithIff(s: string, tail: string)
    ensures EndsWith(s, tail) <==> exists front :: s == front + tail
  {
    if EndsWith(s, tail) { assert s == s[..|s| - |tail|] + tail; }
  }

  /** The row is of the spec, its title is the file's or ends with it, and it does not hold the file yet. */
  predicate Takes(test: Test, s: nat, title: string, key: string) {
    test.spec == s && EndsWith(test.title, title) && key !in test.shots
  }

  /** Every row that takes the file holds it behind those it had; every other row is as it was. */
  predicate RowsTake(before: seq<Test>, s: nat, title: string, key: string, after: seq<Test>) {
    && |after| == |before|
    && forall i :: 0 <= i < |before| ==>
         after[i] == if Takes(before[i], s, title, key)
                     then Test(before[i].spec, before[i].title, before[i].outcome, before[i].shots + [key]) else before[i]
  }

  predicate TakenBy(db: Tables, run: nat, path: string, title: string, key: string, s: nat) {
    && s < |db.specs| && db.specs[s].run == run && db.specs[s].path == path
    && exists i :: 0 <= i < |db.tests| && Takes(db.tests[i], s, title, key)
  }

  predicate PendingThere(tests: seq<Test>, s: nat, title: string) {
    exists i :: 0 <= i < |tests| && tests[i].spec == s && tests[i].title == title && tests[i].outcome.status.Pending?
  }

  /** No row took the file: a pending row of exactly its title does, unless it holds it, or is made with it. */
  predicate RowFor(before: seq<Test>, s: nat, title: string, key: string, after: seq<Test>) {
    if PendingThere(before, s, title) then
      && |after| == |before|
      && forall i :: 0 <= i < |before| ==>
           after[i] == if before[i].spec == s && before[i].title == title && before[i].outcome.status.Pending? && key !in before[i].shots
                       then Test(s, title, before[i].outcome, before[i].shots + [key]) else before[i]
    else after == before + [Test(s, title, Outcome(Pending, 0, None), [key])]
  }

  predicate ShotRowIn(db: Tables, run: nat, path: string, title: string, key: string, s: nat, d: Tables, c: Tables) {
    SpecThere(db, run, path, s, d.specs) && d.runs == db.runs && RowFor(db.tests, s, title, key, d.tests) && CountedAnew(d, s, c)
  }

  ghost predicate ShotTells(db: Tables, run: nat, path: string, title: string, key: string, c: Tables) {
    if s: nat :| TakenBy(db, run, path, title, key, s) then
      RowsTake(db.tests, s, title, key, c.tests) && c.specs == db.specs && c.runs == db.runs
    else if run !in db.runs then c == db
    else exists s: nat, d: Tables :: ShotRowIn(db, run, path, title, key, s, d, c)
  }

  lemma LandsIff(tests: seq<Test>, s: nat, title: string, key: string)
    ensures ShotLands(tests, s, title, key) <==> exists i :: 0 <= i < |tests| && Takes(tests[i], s, title, key)
  {
    if ShotLands(tests, s, title, key) {
      var i :| 0 <= i < |tests| && ShotMatches(tests[i], s, title) && key !in tests[i].shots;
      assert Takes(tests[i], s, title, key);
    }
    if i :| 0 <= i < |tests| && Takes(tests[i], s, title, key) { assert ShotMatches(tests[i], s, title); }
  }

  lemma PendingIff(tests: seq<Test>, s: nat, title: string)
    ensures HasPending(tests, s, title) <==> PendingThere(tests, s, title)
  {
    if HasPending(tests, s, title) {
      var i :| 0 <= i < |tests| && Keyed(tests[i], s, title) && tests[i].outcome.status.Pending?;
      assert tests[i].spec == s;
    }
    if PendingThere(tests, s, title) {
      var i :| 0 <= i < |tests| && tests[i].spec == s && tests[i].title == title && tests[i].outcome.status.Pending?;
      assert Keyed(tests[i], s, title);
    }
  }

  lemma ShotRowTells(tests: seq<Test>, s: nat, title: string, key: string)
    ensures RowFor(tests, s, title, key, WithShotRow(tests, s, title, key))
  {
    PendingIff(tests, s, title);
  }

  lemma ShotTaken(db: Tables, run: nat, path: string, title: string, key: string, s: nat, c: Tables)
    requires Wf(db) && c == ShotPosted(db, run, path, title, key) && TakenBy(db, run, path, title, key, s)
    ensures RowsTake(db.tests, s, title, key, c.tests) && c.specs == db.specs && c.runs == db.runs
  {
    LandsIff(db.tests, s, title, key);
    assert SpecAt(db.specs, run, path) == Some(s);
  }

  lemma ShotMade(db: Tables, run: nat, path: string, title: string, key: string, c: Tables)
    requires Wf(db) && c == ShotPosted(db, run, path, title, key) && run in db.runs
    requires forall s: nat :: !TakenBy(db, run, path, title, key, s)
    ensures exists s: nat, d: Tables :: ShotRowIn(db, run, path, title, key, s, d, c)
  {
    NotTaken(db, run, path, title, key);
    var d := WithSpec(db, run, path);
    var s := SpecMade(db, run, path, d);
    ShotRowTells(d.tests, s, title, key);
    var e := WithTests(d, WithShotRow(d.tests, s, title, key));
    RefreshTells(e, s, c);
    assert ShotRowIn(db, run, path, title, key, s, e, c);
  }

  lemma NotTaken(db: Tables, run: nat, path: string, title: string, key: string)
    requires Wf(db) && forall s: nat :: !TakenBy(db, run, path, title, key, s)
    ensures var at := SpecAt(db.specs, run, path); at.Some? ==> !ShotLands(db.tests, at.value, title, key)
  {
    var at := SpecAt(db.specs, run, path);
    if at.Some? {
      LandsIff(db.tests, at.value, title, key);
      assert !TakenBy(db, run, path, title, key, at.value);
    }
  }

  lemma ShotPostedTells(db: Tables, run: nat, path: string, title: string, key: string, c: Tables)
    requires Wf(db) && c == Handle(db, Shot(run, path, title, key))
    ensures ShotTells(db, run, path, title, key, c)
  {
    forall s: nat | TakenBy(db, run, path, title, key, s)
      ensures RowsTake(db.tests, s, title, key, c.tests) && c.specs == db.specs && c.runs == db.runs
    {
      ShotTaken(db, run, path, title, key, s, c);
    }
    if forall s: nat :: !TakenBy(db, run, path, title, key, s) {
      NotTaken(db, run, path, title, key);
      if run in db.runs { ShotMade(db, run, path, title, key, c); }
    }
  }

  // ---------------------------------------------------------------- a run is aborted

  predicate PendingIn(db: Tables, run: nat, test: Test) {
    test.spec < |db.specs| && db.specs[test.spec].run == run && test.outcome.status.Pending?
  }

  /** The run's pending rows are skipped, with the reason as their error and their time and files kept; every other row
      is as it was. */
  predicate RowsSkipped(db: Tables, run: nat, error: string, after: seq<Test>) {
    && |after| == |db.tests|
    && forall i :: 0 <= i < |db.tests| ==>
         var was := db.tests[i];
         after[i] == if PendingIn(db, run, was) then Test(was.spec, was.title, Outcome(Skipped, was.outcome.duration, Some(error)), was.shots)
                     else was
  }

  predicate Touched(db: Tables, run: nat, s: nat) {
    exists i :: 0 <= i < |db.tests| && db.tests[i].spec == s && PendingIn(db, run, db.tests[i])
  }

  function TouchedBy(db: Tables, run: nat): nat -> bool { (s: nat) => Touched(db, run, s) }

  /** The specs are counted anew where this says so, and are as they were elsewhere. */
  predicate CountedWhere(d: Tables, these: nat -> bool, specs: seq<Spec>) {
    && |specs| == |d.specs|
    && forall s: nat :: s < |d.specs| ==>
         specs[s] == if these(s) then Spec(d.specs[s].run, d.specs[s].path, CountTests(d.tests, s)) else d.specs[s]
  }

  /** The specs of the skipped rows are counted anew, and the run, if there are any, summed anew. */
  predicate AbortTells(db: Tables, run: nat, error: string, c: Tables) {
    && RowsSkipped(db, run, error, c.tests)
    && CountedWhere(db.(tests := c.tests), TouchedBy(db, run), c.specs)
    && if exists s :: 0 <= s < |db.specs| && Touched(db, run, s) then SummedAnew(db, run, c) else c.runs == db.runs
  }

  function Among(specs: seq<nat>): nat -> bool { s => s in specs }

  lemma OneMoreCounted(d: Tables, front: seq<nat>, last: nat, before: Tables, c: Tables)
    requires last < |d.specs| && CountedWhere(d, Among(front), before.specs) && before.tests == d.tests && CountedAnew(before, last, c)
    ensures CountedWhere(d, Among(front + [last]), c.specs)
  {
  }

  lemma OneMoreSummed(d: Tables, run: nat, last: nat, before: Tables, c: Tables)
    requires last < |before.specs| && before.specs[last].run == run && CountedAnew(before, last, c)
    requires before.runs == d.runs || SummedAnew(d, run, before)
    ensures SummedAnew(d, run, c)
  {
  }

  /** Refreshing specs of one run counts each of them anew and no other, and sums the run if there are any. */
  lemma {:induction false} RefreshAllTells(d: Tables, run: nat, specs: seq<nat>, c: Tables)
    requires Wf(d) && SpecIds(d, specs) && c == RefreshedAll(d, specs)
    requires forall i :: 0 <= i < |specs| ==> d.specs[specs[i]].run == run
    ensures CountedWhere(d, Among(specs), c.specs)
    ensures if specs == [] then c.runs == d.runs else SummedAnew(d, run, c)
  {
    if specs != [] {
      var front, last := specs[..|specs| - 1], specs[|specs| - 1];
      var before := RefreshedAll(d, front);
      RefreshAllTells(d, run, front, before);
      RefreshTells(before, last, c);
      OneMoreCounted(d, front, last, before, c);
      OneMoreSummed(d, run, last, before, c);
      assert specs == front + [last];
    }
  }

  lemma AbortedRows(db: Tables, run: nat, error: string)
    requires Wf(db)
    ensures RowsSkipped(db, run, error, WithAborted(db, run, error))
  {
  }

  /** The specs that an abort refreshes: of the run, and exactly those it took a row of. */
  lemma AbortedSpecsAre(db: Tables, run: nat, affected: seq<nat>)
    requires Wf(db) && affected == AbortedSpecs(db, run, |db.tests|)
    ensures SpecIds(db, affected) && forall i :: 0 <= i < |affected| ==> db.specs[affected[i]].run == run
    ensures forall s: nat :: s in affected <==> Touched(db, run, s)
    ensures affected != [] <==> exists s :: 0 <= s < |db.specs| && Touched(db, run, s)
  {
    AbortedIds(db, run);
    forall s: nat ensures s in affected <==> Touched(db, run, s) { TouchedIff(db, run, s); }
    forall i | 0 <= i < |affected| ensures db.specs[affected[i]].run == run { assert affected[i] in affected; }
    if affected != [] { assert affected[0] in affected; }
    if s :| 0 <= s < |db.specs| && Touched(db, run, s) { assert s in affected; }
  }

  lemma TouchedIff(db: Tables, run: nat, s: nat)
    requires Wf(db)
    ensures s in AbortedSpecs(db, run, |db.tests|) <==> Touched(db, run, s)
  {
    if i: nat :| i < |db.tests| && db.tests[i].spec == s && PendingOf(db, run, db.tests[i]) { assert PendingIn(db, run, db.tests[i]); }
    if i: nat :| i < |db.tests| && db.tests[i].spec == s && PendingIn(db, run, db.tests[i]) { assert PendingOf(db, run, db.tests[i]); }
  }

  lemma SameWhere(d: Tables, specs: seq<nat>, db: Tables, run: nat, after: seq<Spec>)
    requires CountedWhere(d, Among(specs), after) && d.specs == db.specs
    requires forall s: nat :: s in specs <==> Touched(db, run, s)
    ensures CountedWhere(d, TouchedBy(db, run), after)
  {
  }

  lemma AbortedTells(db: Tables, run: nat, error: string, c: Tables)
    requires Wf(db) && c == Handle(db, Abort(run, error))
    ensures AbortTells(db, run, error, c)
  {
    var affected := AbortedSpecs(db, run, |db.tests|);
    AbortedSpecsAre(db, run, affected);
    AbortedRows(db, run, error);
    var d := WithTests(db, WithAborted(db, run, error));
    AbortRefreshes(db, run, error, affected, d, c);
    SameWhere(d, affected, db, run, c.specs);
    assert d == db.(tests := c.tests);
  }

  lemma AbortRefreshes(db: Tables, run: nat, error: string, affected: seq<nat>, d: Tables, c: Tables)
    requires Wf(db) && affected == AbortedSpecs(db, run, |db.tests|) && d == WithTests(db, WithAborted(db, run, error))
    requires c == Handle(db, Abort(run, error))
    requires SpecIds(db, affected) && forall i :: 0 <= i < |affected| ==> db.specs[affected[i]].run == run
    ensures CountedWhere(d, Among(affected), c.specs) && c.tests == d.tests
    ensures if affected == [] then c.runs == db.runs else SummedAnew(db, run, c)
  {
    assert c == RefreshedAll(d, affected);
    RefreshAllTells(d, run, affected, c);
  }
}
