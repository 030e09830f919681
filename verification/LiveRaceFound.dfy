// One spec.finished in a run's queue beside one screenshot upload: which of them can leave the spec's
// counters wrong. The upload may create the first row of a spec between the moment the handler counted
// no rows and the moment it writes its summary.
module LiveRaceFound {
  import opened Text
  import opened LiveTables
  import opened LiveRaces
  import opened LiveCalm

  /** Two actors: a run's queue and a screenshot upload. */
  function Two(db: Tables, queue: seq<Query>, upload: seq<Query>): Live {
    Live(db, map[0 := queue, 1 := upload])
  }

  lemma QueueGoes(db: Tables, head: Query, upload: seq<Query>, m: Live)
    requires m == Two(db, [head], upload) && Sound(m) && Holds(db, head) && Wf(db)
    ensures Next(m, Go(0)) == Two(After(db, head), Then(db, head), upload)
  {
    assert m.todo[0][1..] == [];
    assert Then(db, head) + [] == Then(db, head);
  }

  lemma UploadGoes(db: Tables, queue: seq<Query>, head: Query, m: Live)
    requires m == Two(db, queue, [head]) && Sound(m) && Holds(db, head) && Wf(db)
    ensures Next(m, Go(1)) == Two(After(db, head), queue, Then(db, head))
  {
    assert m.todo[1][1..] == [];
    assert Then(db, head) + [] == Then(db, head);
  }

  lemma {:induction false} RunConcat(m: Live, a: seq<Step>, b: seq<Step>)
    requires Sound(m)
    ensures Run(m, a + b) == Run(Run(m, a), b)
    decreases |a|
  {
    if a == [] {
      assert a + b == b;
    } else {
      assert (a + b)[1..] == a[1..] + b;
      RunConcat(Next(m, a[0]), a[1..], b);
    }
  }

  lemma RunOne(m: Live, a: Step)
    requires Sound(m)
    ensures Run(m, [a]) == Next(m, a)
  {
    assert [a][1..] == [];
  }

  lemma RunMore(m: Live, steps: seq<Step>, a: Step)
    requires Sound(m)
    ensures Run(m, steps + [a]) == Next(Run(m, steps), a)
  {
    RunConcat(m, steps, [a]);
    RunOne(Run(m, steps), a);
  }

  /** Nothing more arrives. */
  predicate OnlyGo(steps: seq<Step>) { forall step :: step in steps ==> step.Go? }

  // ---------------------------------------------------------------- the harmful schedule

  /** The tables with the spec of the upload, and its id. */
  function Specced(db: Tables, run: nat, path: string): Tables
    requires Wf(db) && run in db.runs
  {
    WithSpec(db, run, path)
  }

  /** The row an upload inserts. */
  function ShotRow(s: nat, title: string, key: string): (row: Test)
    ensures row.spec == s && row.outcome == PENDING
  {
    Test(s, title, PENDING, [key])
  }

  function WithRow(db: Tables, s: nat, title: string, key: string): Tables {
    db.(tests := db.tests + [ShotRow(s, title, key)])
  }

  lemma NoRowsNoMatch(tests: seq<Test>, s: nat, title: string, key: string)
    requires !HasTests(tests, s)
    ensures WithShot(tests, s, title, key) == tests && !ShotLands(tests, s, title, key) && !HasPending(tests, s, title)
  {
  }

  /** A spec that is found or made for a path without rows has none. */
  lemma SpeccedEmpty(db: Tables, run: nat, path: string, d: Tables, s: nat)
    requires Wf(db) && run in db.runs && NoRows(db, run, path) && d == Specced(db, run, path) && s == Found(d, run, path)
    ensures s < |d.specs| && d.specs[s].run == run && !HasTests(d.tests, s)
  {
    if SpecAt(db.specs, run, path).None? {
      SpecAtNew(db.specs, Spec(run, path, ZERO), run, path);
      assert s == |db.specs|;
    }
  }

  /** The queue decides, before there is a row, to write its summary. */
  lemma QueueReads(db: Tables, run: nat, path: string, stats: Stats, upload: seq<Query>, m: Live) returns (steps: seq<Step>)
    requires Wf(db) && NoRows(db, run, path) && m == Two(db, [EndSpec(run, path, stats)], upload) && Sound(m)
    ensures OnlyGo(steps) && Run(m, steps) == Two(db, [PutSummary(run, path, stats)], upload)
  {
    QueueGoes(db, EndSpec(run, path, stats), upload, m);
    RunOne(m, Go(0));
    steps := [Go(0)];
    var s := SpecAt(db.specs, run, path);
    if s.Some? {
      var n := Next(m, Go(0));
      QueueGoes(db, CountRows(s.value, run, path, stats), upload, n);
      RunMore(m, steps, Go(0));
      steps := steps + [Go(0)];
    }
  }

  /** The upload finds no row to link the screenshot to, and inserts one. */
  lemma UploadInserts(db: Tables, run: nat, path: string, title: string, key: string, queue: seq<Query>, m: Live,
                      d: Tables, s: nat)
    requires Wf(db) && run in db.runs && NoRows(db, run, path) && d == Specced(db, run, path) && s == Found(d, run, path)
    requires m == Two(db, queue, [Shot(run, path, title, key)]) && Sound(m)
    ensures Run(m, [Go(1)] + [Go(1)] + [Go(1)]) == Two(WithRow(d, s, title, key), queue, [Recompute(s)])
  {
    UploadLooks(db, run, path, title, key, queue, m);
    RunOne(m, Go(1));
    var n := Next(m, Go(1));
    UploadGoes(db, queue, ShotSpec(run, path, title, key), n);
    RunMore(m, [Go(1)], Go(1));
    var o := Next(n, Go(1));
    SpeccedEmpty(db, run, path, d, s);
    NoRowsNoMatch(d.tests, s, title, key);
    UploadGoes(d, queue, PutShot(s, title, key), o);
    RunMore(m, [Go(1)] + [Go(1)], Go(1));
  }

  lemma UploadLooks(db: Tables, run: nat, path: string, title: string, key: string, queue: seq<Query>, m: Live)
    requires Wf(db) && NoRows(db, run, path) && m == Two(db, queue, [Shot(run, path, title, key)]) && Sound(m)
    ensures Next(m, Go(1)) == Two(db, queue, [ShotSpec(run, path, title, key)])
  {
    var s := SpecAt(db.specs, run, path);
    if s.Some? { NoRowsNoMatch(db.tests, s.value, title, key); }
    UploadGoes(db, queue, Shot(run, path, title, key), m);
  }

  /** It recomputes the spec and the run. */
  lemma UploadRecomputes(db: Tables, s: nat, queue: seq<Query>, m: Live)
    requires Wf(db) && s < |db.specs| && m == Two(db, queue, [Recompute(s)]) && Sound(m)
    ensures Run(m, [Go(1)] + [Go(1)]) == Two(WithRollup(WithRecomputed(db, s), db.specs[s].run), queue, [])
  {
    var d := WithRecomputed(db, s);
    UploadGoes(db, queue, Recompute(s), m);
    RunOne(m, Go(1));
    UploadGoes(d, queue, Rollup(db.specs[s].run), Next(m, Go(1)));
    RunMore(m, [Go(1)], Go(1));
  }

  /** Then the queue writes its summary and rolls the run up. */
  lemma QueueWrites(db: Tables, run: nat, path: string, stats: Stats, m: Live)
    requires Wf(db) && m == Two(db, [PutSummary(run, path, stats)], []) && Sound(m)
    ensures Run(m, [Go(0)] + [Go(0)]) == Two(WithRollup(WithSummary(db, run, path, stats), run), [], [])
  {
    QueueGoes(db, PutSummary(run, path, stats), [], m);
    RunOne(m, Go(0));
    QueueGoes(WithSummary(db, run, path, stats), Rollup(run), [], Next(m, Go(0)));
    RunMore(m, [Go(0)], Go(0));
  }

  /** One test, pending: what one row inserted by an upload counts as. */
  predicate OnePending(c: Counts) {
    c.total == 1 && c.passed == 0 && c.failed == 0 && c.skipped == 0 && c.pending == 1 && c.duration == 0
  }

  lemma RowCounted(tests: seq<Test>, row: Test, s: nat, more: seq<Test>)
    requires !HasTests(tests, s) && row.spec == s && row.outcome == PENDING && more == tests + [row]
    ensures HasTests(more, s) && OnePending(CountTests(more, s))
  {
    NoneInFront(more, tests, row, s);
    CountNone(tests, s);
    FirstRow(tests, row, s, more);
  }

  lemma FirstRow(tests: seq<Test>, row: Test, s: nat, more: seq<Test>)
    requires CountTests(tests, s) == ZERO && row.spec == s && row.outcome == PENDING && more == tests + [row]
    ensures OnePending(CountTests(more, s))
  {
    CountAppend(tests, row, s);
    PendingAdds(CountTests(tests, s), CountTests(more, s));
  }

  lemma PendingAdds(none: Counts, sum: Counts)
    requires none == ZERO && sum == Add(none, One(PENDING))
    ensures OnePending(sum)
  {
  }

  lemma SpecKept(db: Tables, run: nat, path: string, s: nat, r: Tables)
    requires Wf(db) && SpecAt(db.specs, run, path) == Some(s) && r == WithRollup(WithRecomputed(db, s), run)
    ensures SpecAt(r.specs, run, path) == Some(s) && r.specs[s].counts == CountTests(db.tests, s)
  {
    assert r.specs[s].run == run && r.specs[s].path == path;
    SpecAtIs(r.specs, s);
  }

  /** The spec ends with the summary over the counters of its one row. */
  lemma SummaryIsWrong(run: nat, path: string, s: nat, stats: Stats, r: Tables, d: Tables, end: Tables)
    requires Wf(r) && SpecAt(r.specs, run, path) == Some(s) && HasTests(r.tests, s) && OnePending(CountTests(r.tests, s))
    requires d == WithRollup(WithRecomputed(r, s), run) && stats != Stats(1, 0, 0, 0)
    requires end == WithRollup(WithSummary(d, run, path, stats), run)
    ensures !Exact(end)
  {
    SpecKept(r, run, path, s, d);
    assert end.specs[s].counts == Summarised(CountTests(r.tests, s), stats);
    assert end.tests == r.tests;
    assert !SpecExact(end, s);
  }

  /** A spec without rows, a summary of anything but one test with no outcome, and any screenshot: this interleaving
      leaves nothing to do and the spec's counters wrong. */
  lemma SummaryRace(db: Tables, run: nat, path: string, title: string, key: string, stats: Stats, m: Live) returns (steps: seq<Step>)
    requires Wf(db) && run in db.runs && NoRows(db, run, path) && stats != Stats(1, 0, 0, 0)
    requires m == Two(db, [EndSpec(run, path, stats)], [Shot(run, path, title, key)]) && Sound(m)
    ensures OnlyGo(steps) && Quiet(Run(m, steps)) && !Exact(Run(m, steps).db)
  {
    var queue, upload := [PutSummary(run, path, stats)], [Shot(run, path, title, key)];
    var looks := QueueReads(db, run, path, stats, upload, m);
    var d := Specced(db, run, path);
    var s := Found(d, run, path);
    var row := WithRow(d, s, title, key);
    RowInserted(db, run, path, title, key, d, s, row);
    UploadInserts(db, run, path, title, key, queue, Run(m, looks), d, s);
    var inserts := ThreeGo(1);
    steps := InsertsEnd(m, looks, inserts, Two(row, queue, [Recompute(s)]), row, run, path, s, stats);
  }

  lemma ThreeGo(a: nat) returns (steps: seq<Step>)
    ensures steps == [Go(a)] + [Go(a)] + [Go(a)] && OnlyGo(steps)
  {
    steps := [Go(a)] + [Go(a)] + [Go(a)];
  }

  lemma InsertsEnd(m: Live, looks: seq<Step>, inserts: seq<Step>, n: Live, row: Tables, run: nat, path: string, s: nat, stats: Stats)
    returns (steps: seq<Step>)
    requires Sound(m) && OnlyGo(looks) && OnlyGo(inserts) && Wf(row)
    requires Run(Run(m, looks), inserts) == n && n == Two(row, [PutSummary(run, path, stats)], [Recompute(s)])
    requires SpecAt(row.specs, run, path) == Some(s) && s < |row.specs| && row.specs[s].run == run
    requires HasTests(row.tests, s) && OnePending(CountTests(row.tests, s)) && stats != Stats(1, 0, 0, 0)
    ensures OnlyGo(steps) && Quiet(Run(m, steps)) && !Exact(Run(m, steps).db)
  {
    RunConcat(m, looks, inserts);
    steps := RaceEnds(m, looks + inserts, row, run, path, s, stats);
  }

  lemma RowInserted(db: Tables, run: nat, path: string, title: string, key: string, d: Tables, s: nat, row: Tables)
    requires Wf(db) && run in db.runs && NoRows(db, run, path) && d == Specced(db, run, path) && s == Found(d, run, path)
    requires row == WithRow(d, s, title, key)
    ensures Wf(row) && SpecAt(row.specs, run, path) == Some(s) && s < |row.specs| && row.specs[s].run == run
    ensures HasTests(row.tests, s) && OnePending(CountTests(row.tests, s))
  {
    SpeccedEmpty(db, run, path, d, s);
    RowFits(d, s, ShotRow(s, title, key), row);
    RowCounted(d.tests, ShotRow(s, title, key), s, row.tests);
  }

  lemma RowFits(d: Tables, s: nat, shot: Test, row: Tables)
    requires Wf(d) && s < |d.specs| && shot.spec == s && row == d.(tests := d.tests + [shot])
    ensures Wf(row) && row.specs == d.specs && row.tests == d.tests + [shot]
  {
  }

  /** The upload counts its row, then the queue writes its summary over it. */
  lemma RaceEnds(m: Live, before: seq<Step>, row: Tables, run: nat, path: string, s: nat, stats: Stats) returns (steps: seq<Step>)
    requires Sound(m) && OnlyGo(before) && Wf(row) && Run(m, before) == Two(row, [PutSummary(run, path, stats)], [Recompute(s)])
    requires SpecAt(row.specs, run, path) == Some(s) && s < |row.specs| && row.specs[s].run == run
    requires HasTests(row.tests, s) && OnePending(CountTests(row.tests, s)) && stats != Stats(1, 0, 0, 0)
    ensures OnlyGo(steps) && Quiet(Run(m, steps)) && !Exact(Run(m, steps).db)
  {
    var ups := [Go(1)] + [Go(1)];
    UploadRecomputes(row, s, [PutSummary(run, path, stats)], Run(m, before));
    RunConcat(m, before, ups);
    steps := WritesEnd(m, before + ups, row, WithRollup(WithRecomputed(row, s), run), run, path, s, stats);
  }

  lemma WritesEnd(m: Live, before: seq<Step>, row: Tables, d: Tables, run: nat, path: string, s: nat, stats: Stats)
    returns (steps: seq<Step>)
    requires Sound(m) && OnlyGo(before) && Wf(row) && SpecAt(row.specs, run, path) == Some(s) && s < |row.specs|
    requires d == WithRollup(WithRecomputed(row, s), run) && Run(m, before) == Two(d, [PutSummary(run, path, stats)], [])
    requires HasTests(row.tests, s) && OnePending(CountTests(row.tests, s)) && stats != Stats(1, 0, 0, 0)
    ensures OnlyGo(steps) && Quiet(Run(m, steps)) && !Exact(Run(m, steps).db)
  {
    var writes := [Go(0)] + [Go(0)];
    QueueWrites(d, run, path, stats, Run(m, before));
    RunConcat(m, before, writes);
    steps := before + writes;
    SummaryIsWrong(run, path, s, stats, row, d, WithRollup(WithSummary(d, run, path, stats), run));
  }

  // ---------------------------------------------------------------- when every schedule is harmless

  /** Where the race stands: what each of the two still has to do, and what the spec's rows are. */
  predicate Racing(m: Live, run: nat, path: string, title: string, key: string) {
    && Inv(m) && m.todo.Keys == {0, 1} && |m.todo[0]| <= 1 && |m.todo[1]| <= 1
    && (m.todo[0] != [] ==> QueueAt(m.db, m.todo[0][0], run, path))
    && (m.todo[1] != [] ==> UploadAt(m.db, m.todo[1][0], run, path, title, key))
    && (if m.todo[1] != [] && Upcoming(m.todo[1][0]) then NoRows(m.db, run, path) else OneRow(m.db, run, path))
  }

  predicate OneRow(db: Tables, run: nat, path: string) {
    var s := SpecAt(db.specs, run, path);
    s.Some? && HasTests(db.tests, s.value) && OnePending(CountTests(db.tests, s.value))
  }

  predicate Upcoming(q: Query) { q.Shot? || q.ShotSpec? || q.PutShot? }

  predicate QueueAt(db: Tables, q: Query, run: nat, path: string) {
    || q == EndSpec(run, path, Stats(1, 0, 0, 0))
    || (q.CountRows? && q == CountRows(q.s, run, path, Stats(1, 0, 0, 0)) && SpecAt(db.specs, run, path) == Some(q.s))
    || q == PutSummary(run, path, Stats(1, 0, 0, 0))
    || (q.Recompute? && q.s < |db.specs|)
    || q.Rollup?
  }

  predicate UploadAt(db: Tables, q: Query, run: nat, path: string, title: string, key: string) {
    || q == Shot(run, path, title, key)
    || q == ShotSpec(run, path, title, key)
    || (q.PutShot? && q == PutShot(q.s, title, key) && SpecAt(db.specs, run, path) == Some(q.s))
    || (q.Recompute? && q.s < |db.specs|)
    || q.Rollup?
  }

  /** A summary of one test without outcome says what the one pending row says, once that is counted. */
  lemma SummaryAgrees(m: Live, q: Query, run: nat, path: string, s: nat)
    requires Inv(m) && q == PutSummary(run, path, Stats(1, 0, 0, 0)) && s < |m.db.specs|
    requires NoRows(m.db, run, path) || OneRow(m.db, run, path)
    requires Overwrites(m.db, q, s)
    ensures Owed(m, Recompute(s))
  {
    assert SpecInv(m, s);
    SummarySame(CountTests(m.db.tests, s), Stats(1, 0, 0, 0));
  }

  lemma SummarySame(c: Counts, stats: Stats)
    requires OnePending(c)
    ensures Summarised(c, stats) == c <==> stats == Stats(1, 0, 0, 0)
  {
  }

  lemma QueueKeepsInv(m: Live, run: nat, path: string, title: string, key: string, n: Live)
    requires Racing(m, run, path, title, key) && m.todo[0] != [] && n == Next(m, Go(0))
    ensures Inv(n)
  {
    var head := m.todo[0][0];
    assert head in m.todo[0];
    forall s | 0 <= s < |m.db.specs| && Overwrites(m.db, head, s) ensures Owed(m, Recompute(s)) {
      SummaryAgrees(m, head, run, path, s);
    }
    GoKeepsInv(m, 0, n);
  }

  lemma UploadKeepsInv(m: Live, run: nat, path: string, title: string, key: string, n: Live)
    requires Racing(m, run, path, title, key) && m.todo[1] != [] && n == Next(m, Go(1))
    ensures Inv(n)
  {
    assert m.todo[1][0] in m.todo[1];
    GoKeepsInv(m, 1, n);
  }

  /** The queue's statements touch no test row and keep every spec in place. */
  lemma QueueLeavesRows(db: Tables, q: Query, run: nat, path: string, r: Tables)
    requires Wf(db) && QueueAt(db, q, run, path) && r == After(db, q)
    ensures r.tests == db.tests && |r.specs| == |db.specs|
    ensures SpecAt(r.specs, run, path) == SpecAt(db.specs, run, path)
  {
    forall i | 0 <= i < |db.specs| ensures r.specs[i].run == db.specs[i].run && r.specs[i].path == db.specs[i].path {
      SpecKeeps(db, q, i);
    }
    SpecAtSame(db.specs, r.specs, run, path);
  }

  lemma QueueNext(db: Tables, q: Query, run: nat, path: string)
    requires Wf(db) && QueueAt(db, q, run, path)
    ensures |Then(db, q)| <= 1 && (Then(db, q) != [] ==> QueueAt(After(db, q), Then(db, q)[0], run, path))
  {
    QueueLeavesRows(db, q, run, path, After(db, q));
  }

  lemma QueueRaces(m: Live, run: nat, path: string, title: string, key: string, n: Live)
    requires Racing(m, run, path, title, key) && m.todo[0] != [] && n == Next(m, Go(0))
    ensures Racing(n, run, path, title, key)
  {
    var head := m.todo[0][0];
    assert head in m.todo[0] && m.todo[0] == [head];
    QueueKeepsInv(m, run, path, title, key, n);
    QueueLeavesRows(m.db, head, run, path, n.db);
    QueueNext(m.db, head, run, path);
    assert n.todo[0] == Then(m.db, head) + [] == Then(m.db, head) && n.todo[1] == m.todo[1];
  }

  /** The upload goes from no row to one pending row. */
  lemma UploadNext(db: Tables, q: Query, run: nat, path: string, title: string, key: string, r: Tables, next: seq<Query>)
    requires Wf(db) && run in db.runs && UploadAt(db, q, run, path, title, key) && r == After(db, q) && next == Then(db, q)
    requires if Upcoming(q) then NoRows(db, run, path) else OneRow(db, run, path)
    ensures |next| <= 1 && (next != [] ==> UploadAt(r, next[0], run, path, title, key))
    ensures if next != [] && Upcoming(next[0]) then NoRows(r, run, path) else OneRow(r, run, path)
  {
    match q
    case Shot(_, _, _, _) => ShotNext(db, run, path, title, key, r, next);
    case ShotSpec(_, _, _, _) => ShotSpecNext(db, run, path, title, key, r, next);
    case PutShot(s, _, _) => PutShotNext(db, run, path, s, title, key, r, next);
    case Recompute(s) => CountingLeavesRows(db, q, run, path, r);
    case Rollup(_) => CountingLeavesRows(db, q, run, path, r);
    case _ =>
  }

  lemma ShotNext(db: Tables, run: nat, path: string, title: string, key: string, r: Tables, next: seq<Query>)
    requires Wf(db) && NoRows(db, run, path)
    requires r == After(db, Shot(run, path, title, key)) && next == Then(db, Shot(run, path, title, key))
    ensures r == db && next == [ShotSpec(run, path, title, key)]
  {
    var s := SpecAt(db.specs, run, path);
    if s.Some? { NoRowsNoMatch(db.tests, s.value, title, key); }
  }

  lemma ShotSpecNext(db: Tables, run: nat, path: string, title: string, key: string, r: Tables, next: seq<Query>)
    requires Wf(db) && run in db.runs && NoRows(db, run, path)
    requires r == After(db, ShotSpec(run, path, title, key)) && next == Then(db, ShotSpec(run, path, title, key))
    ensures NoRows(r, run, path) && SpecAt(r.specs, run, path).Some?
    ensures next == [PutShot(Found(r, run, path), title, key)]
  {
    SpeccedEmpty(db, run, path, r, Found(r, run, path));
  }

  lemma PutShotNext(db: Tables, run: nat, path: string, s: nat, title: string, key: string, r: Tables, next: seq<Query>)
    requires Wf(db) && NoRows(db, run, path) && SpecAt(db.specs, run, path) == Some(s)
    requires r == After(db, PutShot(s, title, key)) && next == Then(db, PutShot(s, title, key))
    ensures OneRow(r, run, path) && |r.specs| == |db.specs| && next == [Recompute(s)] && s < |r.specs|
  {
    NoRowsNoMatch(db.tests, s, title, key);
    assert r.tests == db.tests + [ShotRow(s, title, key)];
    RowCounted(db.tests, ShotRow(s, title, key), s, r.tests);
  }

  lemma CountingLeavesRows(db: Tables, q: Query, run: nat, path: string, r: Tables)
    requires Wf(db) && ((q.Recompute? && q.s < |db.specs|) || q.Rollup?) && r == After(db, q)
    ensures r.tests == db.tests && SpecAt(r.specs, run, path) == SpecAt(db.specs, run, path)
  {
    QueueLeavesRows(db, q, run, path, r);
  }

  /** The upload's new spec, or none, leaves the queue's statement where it was. */
  lemma QueueStaysAt(db: Tables, head: Query, q: Query, run: nat, path: string)
    requires Wf(db) && Holds(db, head) && QueueAt(db, q, run, path)
    ensures QueueAt(After(db, head), q, run, path)
  {
    if q.CountRows? { SpecStays(db, head, run, path, q.s); }
  }

  lemma UploadStaysAt(db: Tables, head: Query, q: Query, run: nat, path: string, title: string, key: string)
    requires Wf(db) && Holds(db, head) && UploadAt(db, q, run, path, title, key)
    ensures UploadAt(After(db, head), q, run, path, title, key)
  {
    if q.PutShot? { SpecStays(db, head, run, path, q.s); }
  }

  lemma UploadRaces(m: Live, run: nat, path: string, title: string, key: string, n: Live)
    requires Racing(m, run, path, title, key) && m.todo[1] != [] && n == Next(m, Go(1)) && run in m.db.runs
    ensures Racing(n, run, path, title, key)
  {
    var head := m.todo[1][0];
    assert head in m.todo[1] && m.todo[1] == [head];
    UploadKeepsInv(m, run, path, title, key, n);
    UploadNext(m.db, head, run, path, title, key, n.db, Then(m.db, head));
    if m.todo[0] != [] { QueueStaysAt(m.db, head, m.todo[0][0], run, path); }
    assert n.todo[1] == Then(m.db, head) + [] == Then(m.db, head) && n.todo[0] == m.todo[0];
  }

  lemma {:induction false} RaceStays(m: Live, run: nat, path: string, title: string, key: string, steps: seq<Step>)
    requires Racing(m, run, path, title, key) && run in m.db.runs && OnlyGo(steps)
    ensures Racing(Run(m, steps), run, path, title, key)
    decreases |steps|
  {
    if steps != [] {
      assert steps[0] in steps;
      var n := Next(m, steps[0]);
      RaceStep(m, run, path, title, key, steps[0].actor, n);
      RaceStays(n, run, path, title, key, steps[1..]);
    }
  }

  lemma RaceStep(m: Live, run: nat, path: string, title: string, key: string, a: nat, n: Live)
    requires Racing(m, run, path, title, key) && run in m.db.runs && n == Next(m, Go(a))
    ensures Racing(n, run, path, title, key) && run in n.db.runs
  {
    if Todo(m, a) != [] {
      assert a in m.todo.Keys && m.todo[a][0] in m.todo[a];
      if a == 0 { QueueRaces(m, run, path, title, key, n); } else { UploadRaces(m, run, path, title, key, n); }
      assert run in n.db.runs.Keys;
    }
  }

  // ---------------------------------------------------------------- the exact condition

  /** However the two interleave, once nothing is left to do the aggregates are exact. */
  ghost predicate EndsExact(m: Live)
    requires Sound(m)
  {
    forall steps :: OnlyGo(steps) && Quiet(Run(m, steps)) ==> Exact(Run(m, steps).db)
  }

  lemma StartsSound(db: Tables, run: nat, path: string, title: string, key: string, stats: Stats, m: Live)
    requires Wf(db) && m == Two(db, [EndSpec(run, path, stats)], [Shot(run, path, title, key)])
    ensures Sound(m) && (Exact(db) ==> Inv(m))
  {
    if Exact(db) {
      forall s | 0 <= s < |m.db.specs| ensures SpecInv(m, s) { assert SpecExact(db, s); }
      forall r | r in m.db.runs ensures RunInv(m, r) { assert RunExact(db, r); }
    }
  }

  lemma RowsThereExact(db: Tables, run: nat, path: string, title: string, key: string, stats: Stats, m: Live, steps: seq<Step>)
    requires Wf(db) && Exact(db) && HasRows(db, run, path)
    requires m == Two(db, [EndSpec(run, path, stats)], [Shot(run, path, title, key)]) && Sound(m)
    requires OnlyGo(steps) && Quiet(Run(m, steps))
    ensures Exact(Run(m, steps).db)
  {
    var owner := (r: nat) => 0;
    assert Placed(db, owner, 0, m.todo[0], 0) && Placed(db, owner, 1, m.todo[1], 0);
    assert Queued(m, owner);
    OnlyGoFed(m, owner, steps);
    QueuedRunsExact(m, owner, steps);
  }

  lemma {:induction false} OnlyGoFed(m: Live, owner: nat -> nat, steps: seq<Step>)
    requires Sound(m) && OnlyGo(steps)
    ensures Fed(m, owner, steps)
    decreases |steps|
  {
    if steps != [] {
      assert steps[0] in steps;
      OnlyGoFed(Next(m, steps[0]), owner, steps[1..]);
    }
  }

  lemma SameSummaryExact(db: Tables, run: nat, path: string, title: string, key: string, m: Live, steps: seq<Step>)
    requires Wf(db) && Exact(db) && run in db.runs && NoRows(db, run, path)
    requires m == Two(db, [EndSpec(run, path, Stats(1, 0, 0, 0))], [Shot(run, path, title, key)]) && Sound(m)
    requires OnlyGo(steps) && Quiet(Run(m, steps))
    ensures Exact(Run(m, steps).db)
  {
    StartsSound(db, run, path, title, key, Stats(1, 0, 0, 0), m);
    assert m.todo[0] == [EndSpec(run, path, Stats(1, 0, 0, 0))] && m.todo[1] == [Shot(run, path, title, key)];
    RaceStays(m, run, path, title, key, steps);
    QuietIsExact(Run(m, steps));
  }

  /** A spec.finished beside an upload for the same spec: every interleaving ends with exact aggregates if and only if
      the spec has a row when the two begin, or the summary is of one test with no outcome, which is what the pending
      row that the upload inserts counts as. */
  lemma RaceExactIff(db: Tables, run: nat, path: string, title: string, key: string, stats: Stats, m: Live)
    requires Wf(db) && Exact(db) && run in db.runs
    requires m == Two(db, [EndSpec(run, path, stats)], [Shot(run, path, title, key)])
    ensures Sound(m) && (EndsExact(m) <==> HasRows(db, run, path) || stats == Stats(1, 0, 0, 0))
  {
    StartsSound(db, run, path, title, key, stats, m);
    if HasRows(db, run, path) {
      forall steps | OnlyGo(steps) && Quiet(Run(m, steps)) ensures Exact(Run(m, steps).db) {
        RowsThereExact(db, run, path, title, key, stats, m, steps);
      }
    } else if stats == Stats(1, 0, 0, 0) {
      forall steps | OnlyGo(steps) && Quiet(Run(m, steps)) ensures Exact(Run(m, steps).db) {
        SameSummaryExact(db, run, path, title, key, m, steps);
      }
    } else {
      var steps := SummaryRace(db, run, path, title, key, stats, m);
    }
  }
}
