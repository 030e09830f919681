// The tables a live run writes: runs, specs and tests, with the statements the event handlers
// issue against them. A row's id is its position; the live path never deletes a row.
module LiveTables {
  import opened Text

  datatype Status = Passed | Failed | Skipped | Pending

  datatype Counts = Counts(total: int, passed: int, failed: int, skipped: int, pending: int, duration: int)

  /** How a test ended. */
  datatype Outcome = Outcome(status: Status, duration: int, error: Option<string>)

  datatype Test = Test(spec: nat, title: string, outcome: Outcome, shots: seq<string>)

  datatype Spec = Spec(run: nat, path: string, counts: Counts)

  datatype Tables = Tables(runs: map<nat, Counts>, specs: seq<Spec>, tests: seq<Test>)

  /** The payload of spec.finished. */
  datatype Stats = Stats(total: int, passed: int, failed: int, skipped: int)

  const ZERO := Counts(0, 0, 0, 0, 0, 0)

  function Add(a: Counts, b: Counts): Counts {
    Counts(a.total + b.total, a.passed + b.passed, a.failed + b.failed, a.skipped + b.skipped,
           a.pending + b.pending, a.duration + b.duration)
  }

  function One(o: Outcome): Counts {
    Counts(1, if o.status.Passed? then 1 else 0, if o.status.Failed? then 1 else 0,
           if o.status.Skipped? then 1 else 0, if o.status.Pending? then 1 else 0, o.duration)
  }

  /** What counting a spec's test rows gives. */
  function CountTests(tests: seq<Test>, s: nat): Counts {
    if tests == [] then ZERO
    else
      var last := tests[|tests| - 1];
      Add(CountTests(tests[..|tests| - 1], s), if last.spec == s then One(last.outcome) else ZERO)
  }

  /** What summing a run's specs gives. */
  function SumSpecs(specs: seq<Spec>, run: nat): Counts {
    if specs == [] then ZERO
    else
      var last := specs[|specs| - 1];
      Add(SumSpecs(specs[..|specs| - 1], run), if last.run == run then last.counts else ZERO)
  }

  predicate Wf(db: Tables) {
    && (forall i :: 0 <= i < |db.specs| ==> db.specs[i].run in db.runs)
    && (forall i :: 0 <= i < |db.tests| ==> db.tests[i].spec < |db.specs|)
    && UniqueSpecs(db.specs)
  }

  /** UNIQUE (run_id, file_path). */
  predicate UniqueSpecs(specs: seq<Spec>) {
    forall i, j :: 0 <= i < j < |specs| ==> specs[i].run != specs[j].run || specs[i].path != specs[j].path
  }

  // ---------------------------------------------------------------- lookups

  function SpecAt(specs: seq<Spec>, run: nat, path: string): (s: Option<nat>)
    ensures s.Some? ==> s.value < |specs| && specs[s.value].run == run && specs[s.value].path == path
    ensures s.None? ==> forall i :: 0 <= i < |specs| ==> specs[i].run != run || specs[i].path != path
  {
    if specs == [] then None
    else
      var last := |specs| - 1;
      if specs[last].run == run && specs[last].path == path then Some(last) else SpecAt(specs[..last], run, path)
  }

  predicate Keyed(test: Test, s: nat, title: string) { test.spec == s && test.title == title }

  predicate HasRow(tests: seq<Test>, s: nat, title: string) {
    exists i :: 0 <= i < |tests| && Keyed(tests[i], s, title)
  }

  predicate HasTests(tests: seq<Test>, s: nat) {
    exists i :: 0 <= i < |tests| && tests[i].spec == s
  }

  predicate HasPending(tests: seq<Test>, s: nat, title: string) {
    exists i :: 0 <= i < |tests| && Keyed(tests[i], s, title) && tests[i].outcome.status.Pending?
  }

  // ---------------------------------------------------------------- statements

  /** INSERT INTO specs … ON CONFLICT (run_id, file_path) DO UPDATE … RETURNING id. The run must exist. */
  function WithSpec(db: Tables, run: nat, path: string): (r: Tables)
    requires Wf(db) && run in db.runs
    ensures Wf(r) && r.tests == db.tests && r.runs == db.runs && |db.specs| <= |r.specs| && SpecAt(r.specs, run, path).Some?
    ensures forall i :: 0 <= i < |db.specs| ==> r.specs[i] == db.specs[i]
  {
    if SpecAt(db.specs, run, path).Some? then db
    else
      var specs := db.specs + [Spec(run, path, ZERO)];
      assert specs[..|specs| - 1] == db.specs;
      db.(specs := specs)
  }

  const PENDING := Outcome(Pending, 0, None)

  /** INSERT … SELECT … WHERE NOT EXISTS … ON CONFLICT … DO NOTHING. */
  function WithPending(tests: seq<Test>, s: nat, title: string): seq<Test> {
    if HasRow(tests, s, title) then tests else tests + [Test(s, title, PENDING, [])]
  }

  /** UPDATE tests SET status, duration_ms, error_message WHERE spec_id AND full_title. */
  function WithOutcome(tests: seq<Test>, s: nat, title: string, o: Outcome): (r: seq<Test>)
    ensures |r| == |tests|
    ensures forall i :: 0 <= i < |r| ==> r[i] == if Keyed(tests[i], s, title) then tests[i].(outcome := o) else tests[i]
  {
    seq(|tests|, i requires 0 <= i < |tests| => if Keyed(tests[i], s, title) then tests[i].(outcome := o) else tests[i])
  }

  /** UPDATE specs SET total … FROM (SELECT COUNT(*) … FROM tests WHERE spec_id). */
  function WithRecomputed(db: Tables, s: nat): (r: Tables)
    requires Wf(db) && s < |db.specs|
    ensures Wf(r) && r.tests == db.tests && r.runs == db.runs && |r.specs| == |db.specs|
  {
    db.(specs := db.specs[s := db.specs[s].(counts := CountTests(db.tests, s))])
  }

  /** UPDATE runs SET total … FROM (SELECT SUM(total) … FROM specs WHERE run_id). */
  function WithRollup(db: Tables, run: nat): (r: Tables)
    requires Wf(db)
    ensures Wf(r) && r.tests == db.tests && r.specs == db.specs
  {
    if run in db.runs then db.(runs := db.runs[run := SumSpecs(db.specs, run)]) else db
  }

  function Summarised(counts: Counts, stats: Stats): Counts {
    counts.(total := stats.total, passed := stats.passed, failed := stats.failed, skipped := stats.skipped)
  }

  /** UPDATE specs SET total, passed, failed, skipped WHERE run_id AND file_path: pending and duration stay. */
  function WithSummary(db: Tables, run: nat, path: string, stats: Stats): (r: Tables)
    requires Wf(db)
    ensures Wf(r) && r.tests == db.tests && r.runs == db.runs && |r.specs| == |db.specs|
  {
    var s := SpecAt(db.specs, run, path);
    if s.None? then db
    else db.(specs := db.specs[s.value := db.specs[s.value].(counts := Summarised(db.specs[s.value].counts, stats))])
  }

  predicate EndsWith(s: string, tail: string) {
    |tail| <= |s| && s[|s| - |tail|..] == tail
  }

  /** The rows a screenshot is linked to: same spec, and a title equal to or ending with the given one. */
  predicate ShotMatches(test: Test, s: nat, title: string) {
    test.spec == s && EndsWith(test.title, title)
  }

  /** UPDATE tests SET screenshot_paths = array_append(…) WHERE … AND NOT (key = ANY(screenshot_paths)). */
  function WithShot(tests: seq<Test>, s: nat, title: string, key: string): (r: seq<Test>)
    ensures |r| == |tests|
    ensures forall i :: 0 <= i < |r| ==>
      r[i] == if ShotMatches(tests[i], s, title) && key !in tests[i].shots
              then tests[i].(shots := tests[i].shots + [key]) else tests[i]
  {
    seq(|tests|, i requires 0 <= i < |tests| =>
      if ShotMatches(tests[i], s, title) && key !in tests[i].shots
      then tests[i].(shots := tests[i].shots + [key]) else tests[i])
  }

  /** The update found a row to change. */
  predicate ShotLands(tests: seq<Test>, s: nat, title: string, key: string) {
    exists i :: 0 <= i < |tests| && ShotMatches(tests[i], s, title) && key !in tests[i].shots
  }

  /** INSERT a pending row … ON CONFLICT (spec_id, full_title) WHERE status = 'pending' DO UPDATE. */
  function WithShotRow(tests: seq<Test>, s: nat, title: string, key: string): (r: seq<Test>)
    ensures |tests| <= |r|
  {
    if HasPending(tests, s, title) then
      seq(|tests|, i requires 0 <= i < |tests| =>
        if Keyed(tests[i], s, title) && tests[i].outcome.status.Pending? && key !in tests[i].shots
        then tests[i].(shots := tests[i].shots + [key]) else tests[i])
    else tests + [Test(s, title, PENDING, [key])]
  }

  predicate PendingOf(db: Tables, run: nat, test: Test)
    requires test.spec < |db.specs|
  {
    db.specs[test.spec].run == run && test.outcome.status.Pending?
  }

  /** UPDATE tests SET status = 'skipped', error_message FROM specs WHERE run_id AND status = 'pending'. */
  function WithAborted(db: Tables, run: nat, error: string): (r: seq<Test>)
    requires Wf(db)
    ensures |r| == |db.tests|
    ensures forall i :: 0 <= i < |r| ==>
      r[i] == if PendingOf(db, run, db.tests[i])
              then db.tests[i].(outcome := db.tests[i].outcome.(status := Skipped, error := Some(error))) else db.tests[i]
  {
    seq(|db.tests|, i requires 0 <= i < |db.tests| =>
      if PendingOf(db, run, db.tests[i])
      then db.tests[i].(outcome := db.tests[i].outcome.(status := Skipped, error := Some(error))) else db.tests[i])
  }

  /** The specs that update touched, each once, in row order. */
  function AbortedSpecs(db: Tables, run: nat, n: nat): (r: seq<nat>)
    requires Wf(db) && n <= |db.tests|
    ensures forall s :: s in r <==> exists i :: 0 <= i < n && db.tests[i].spec == s && PendingOf(db, run, db.tests[i])
    ensures forall i, j :: 0 <= i < j < |r| ==> r[i] != r[j]
  {
    if n == 0 then []
    else
      var rest, test := AbortedSpecs(db, run, n - 1), db.tests[n - 1];
      if PendingOf(db, run, test) && test.spec !in rest then rest + [test.spec] else rest
  }

  // ---------------------------------------------------------------- exact aggregates

  /** The aggregates of spec s are the counts of its rows, if it has rows. */
  predicate SpecExact(db: Tables, s: nat)
    requires s < |db.specs|
  {
    HasTests(db.tests, s) ==> db.specs[s].counts == CountTests(db.tests, s)
  }

  predicate RunExact(db: Tables, run: nat)
    requires run in db.runs
  {
    db.runs[run] == SumSpecs(db.specs, run)
  }

  predicate Exact(db: Tables) {
    && (forall s :: 0 <= s < |db.specs| ==> SpecExact(db, s))
    && (forall run :: run in db.runs ==> RunExact(db, run))
  }

  predicate Adds(c: Counts) { c.total == c.passed + c.failed + c.skipped + c.pending }

  predicate NonNegative(c: Counts) {
    c.total >= 0 && c.passed >= 0 && c.failed >= 0 && c.skipped >= 0 && c.pending >= 0
  }

  /** A spec's counters add up, and without rows nothing is pending. */
  predicate SpecBalanced(db: Tables, s: nat)
    requires s < |db.specs|
  {
    && Adds(db.specs[s].counts) && NonNegative(db.specs[s].counts)
    && (!HasTests(db.tests, s) ==> db.specs[s].counts.pending == 0)
  }

  predicate Balanced(db: Tables) {
    forall s :: 0 <= s < |db.specs| ==> SpecBalanced(db, s)
  }

  lemma AddZero(a: Counts)
    ensures Add(a, ZERO) == a
  {
  }

  lemma {:induction false} CountAdds(tests: seq<Test>, s: nat)
    ensures Adds(CountTests(tests, s)) && NonNegative(CountTests(tests, s))
  {
    if tests != [] { CountAdds(tests[..|tests| - 1], s); }
  }

  lemma {:induction false} SumAdds(specs: seq<Spec>, run: nat)
    requires forall i :: 0 <= i < |specs| ==> Adds(specs[i].counts) && NonNegative(specs[i].counts)
    ensures Adds(SumSpecs(specs, run)) && NonNegative(SumSpecs(specs, run))
  {
    if specs != [] { SumAdds(specs[..|specs| - 1], run); }
  }

  lemma NoneInFront(tests: seq<Test>, front: seq<Test>, last: Test, s: nat)
    requires tests == front + [last]
    ensures HasTests(tests, s) <==> HasTests(front, s) || last.spec == s
  {
    if HasTests(front, s) {
      var i :| 0 <= i < |front| && front[i].spec == s;
      assert tests[i] == front[i];
    }
    assert tests[|front|] == last;
  }

  lemma BalancedParts(db: Tables)
    requires Balanced(db)
    ensures forall i :: 0 <= i < |db.specs| ==> Adds(db.specs[i].counts) && NonNegative(db.specs[i].counts)
  {
    forall i | 0 <= i < |db.specs| ensures Adds(db.specs[i].counts) && NonNegative(db.specs[i].counts) {
      assert SpecBalanced(db, i);
    }
  }

  lemma CountNone(tests: seq<Test>, s: nat)
    requires !HasTests(tests, s)
    ensures CountTests(tests, s) == ZERO
  {
    CountAbsent(tests, s);
  }

  lemma {:induction false} CountAbsent(tests: seq<Test>, s: nat)
    requires forall i :: 0 <= i < |tests| ==> tests[i].spec != s
    ensures CountTests(tests, s) == ZERO
  {
    if tests != [] {
      var front := tests[..|tests| - 1];
      CountAbsent(front, s);
      NothingAdded(tests, front, tests[|tests| - 1], s);
    }
  }

  lemma NothingAdded(tests: seq<Test>, front: seq<Test>, last: Test, s: nat)
    requires tests != [] && front == tests[..|tests| - 1] && last == tests[|tests| - 1] && last.spec != s
    ensures CountTests(tests, s) == CountTests(front, s)
  {
    AddZero(CountTests(front, s));
  }

  /** Counting looks only at which spec a row belongs to and how it ended. */
  lemma {:induction false} CountSame(a: seq<Test>, b: seq<Test>, s: nat)
    requires |a| == |b|
    requires forall i :: 0 <= i < |a| ==> a[i].spec == b[i].spec && (a[i].spec == s ==> a[i].outcome == b[i].outcome)
    ensures CountTests(a, s) == CountTests(b, s)
  {
    if a != [] { CountSame(a[..|a| - 1], b[..|b| - 1], s); }
  }

  lemma CountAppend(tests: seq<Test>, test: Test, s: nat)
    ensures CountTests(tests + [test], s) == Add(CountTests(tests, s), if test.spec == s then One(test.outcome) else ZERO)
  {
    assert (tests + [test])[..|tests|] == tests;
  }

  predicate PendingRow(test: Test, s: nat) { test.spec == s && test.outcome.status.Pending? }

  predicate NonePending(tests: seq<Test>, s: nat) {
    forall test :: test in tests ==> !PendingRow(test, s)
  }

  /** A spec's pending counter is zero exactly when none of its rows is pending. */
  lemma {:induction false} CountPending(tests: seq<Test>, s: nat)
    ensures CountTests(tests, s).pending == 0 <==> NonePending(tests, s)
  {
    if tests != [] {
      var front, last := tests[..|tests| - 1], tests[|tests| - 1];
      CountPending(front, s);
      CountAdds(front, s);
      InFrontOrLast(tests, front, last);
      assert NonePending(tests, s) <==> NonePending(front, s) && !PendingRow(last, s);
    }
  }

  lemma InFrontOrLast(tests: seq<Test>, front: seq<Test>, last: Test)
    requires tests != [] && front == tests[..|tests| - 1] && last == tests[|tests| - 1]
    ensures forall test :: test in tests <==> test in front || test == last
  {
    assert tests == front + [last];
  }

  /** Another run's sum does not see a spec of this run change. */
  lemma {:induction false} SumOther(specs: seq<Spec>, s: nat, counts: Counts, run: nat)
    requires s < |specs| && specs[s].run != run
    ensures SumSpecs(specs[s := specs[s].(counts := counts)], run) == SumSpecs(specs, run)
  {
    var changed := specs[s := specs[s].(counts := counts)];
    var last := |specs| - 1;
    if s == last {
      assert changed[..last] == specs[..last];
    } else {
      SumOther(specs[..last], s, counts, run);
      assert changed[..last] == specs[..last][s := specs[s].(counts := counts)];
    }
  }

  lemma SumAppend(specs: seq<Spec>, spec: Spec, run: nat)
    ensures SumSpecs(specs + [spec], run) == Add(SumSpecs(specs, run), if spec.run == run then spec.counts else ZERO)
  {
    assert (specs + [spec])[..|specs|] == specs;
  }

  lemma SumNew(specs: seq<Spec>, spec: Spec, run: nat)
    requires spec.counts == ZERO
    ensures SumSpecs(specs + [spec], run) == SumSpecs(specs, run)
  {
    SumAppend(specs, spec, run);
    AddZero(SumSpecs(specs, run));
  }

  /** A spec keeps its place: later lookups of its path find it. */
  lemma {:induction false} SpecAtIs(specs: seq<Spec>, s: nat)
    requires s < |specs| && UniqueSpecs(specs)
    ensures SpecAt(specs, specs[s].run, specs[s].path) == Some(s)
  {
    if s < |specs| - 1 { SpecAtIs(specs[..|specs| - 1], s); }
  }
}
