// One event at a time: what each handler leaves in the tables once it has run to its end.
module LiveEvents {
  import opened Text
  import opened LiveTables
  import opened LiveRaces

  /** The spec recounted from its rows and its run summed from its specs. */
  function Refreshed(db: Tables, s: nat): (r: Tables)
    requires Wf(db) && s < |db.specs|
    ensures Wf(r) && r.tests == db.tests && |r.specs| == |db.specs| && r.runs.Keys == db.runs.Keys
  {
    WithRollup(WithRecomputed(db, s), db.specs[s].run)
  }

  function WithTests(db: Tables, tests: seq<Test>): (r: Tables)
    requires Wf(db) && |db.tests| <= |tests|
    requires forall i :: 0 <= i < |tests| ==> tests[i].spec < |db.specs|
    ensures Wf(r)
  {
    db.(tests := tests)
  }

  /** A test that ended: its rows rewritten, or a first row. */
  function Ended(tests: seq<Test>, s: nat, title: string, o: Outcome): (r: seq<Test>)
    ensures |tests| <= |r|
  {
    if HasRow(tests, s, title) then WithOutcome(tests, s, title, o) else tests + [Test(s, title, o, [])]
  }

  function Handle(db: Tables, q: Query): (r: Tables)
    requires Wf(db)
    ensures Wf(r)
  {
    match q
    case StartSpec(run, path) => if run in db.runs then WithSpec(db, run, path) else db
    case StartTest(run, path, title) => if run in db.runs then TestStarted(db, run, path, title) else db
    case EndTest(run, path, title, o) => if run in db.runs then TestEnded(db, run, path, title, o) else db
    case EndSpec(run, path, stats) => SpecFinished(db, run, path, stats)
    case Shot(run, path, title, key) => ShotPosted(db, run, path, title, key)
    case Abort(run, error) => Aborted(db, run, error)
    case _ => db
  }

  /** Several specs refreshed, one after another. */
  function RefreshedAll(db: Tables, specs: seq<nat>): (r: Tables)
    requires Wf(db) && SpecIds(db, specs)
    ensures Wf(r) && r.tests == db.tests && |r.specs| == |db.specs| && r.runs.Keys == db.runs.Keys
  {
    if specs == [] then db
    else Refreshed(RefreshedAll(db, specs[..|specs| - 1]), specs[|specs| - 1])
  }

  predicate SpecIds(db: Tables, specs: seq<nat>) {
    forall i :: 0 <= i < |specs| ==> specs[i] < |db.specs|
  }

  lemma AbortedIds(db: Tables, run: nat)
    requires Wf(db)
    ensures SpecIds(db, AbortedSpecs(db, run, |db.tests|))
  {
    var affected := AbortedSpecs(db, run, |db.tests|);
    forall i | 0 <= i < |affected| ensures affected[i] < |db.specs| {
      assert affected[i] in affected;
    }
  }

  /** The pending rows of a run become skipped, and every spec that had one is refreshed. */
  function Aborted(db: Tables, run: nat, error: string): (r: Tables)
    requires Wf(db)
    ensures Wf(r) && r.tests == WithAborted(db, run, error)
  {
    AbortedIds(db, run);
    RefreshedAll(WithTests(db, WithAborted(db, run, error)), AbortedSpecs(db, run, |db.tests|))
  }

  function TestStarted(db: Tables, run: nat, path: string, title: string): (r: Tables)
    requires Wf(db) && run in db.runs
    ensures Wf(r)
  {
    var d := WithSpec(db, run, path);
    var s := Found(d, run, path);
    if HasRow(d.tests, s, title) then d else Refreshed(WithTests(d, d.tests + [Test(s, title, PENDING, [])]), s)
  }

  function TestEnded(db: Tables, run: nat, path: string, title: string, o: Outcome): (r: Tables)
    requires Wf(db) && run in db.runs
    ensures Wf(r)
  {
    var d := WithSpec(db, run, path);
    var s := Found(d, run, path);
    Refreshed(WithTests(d, Ended(d.tests, s, title, o)), s)
  }

  /** With rows the tables are the truth; without, the reporter's payload is all there is. */
  function SpecFinished(db: Tables, run: nat, path: string, stats: Stats): (r: Tables)
    requires Wf(db)
    ensures Wf(r)
  {
    var s := SpecAt(db.specs, run, path);
    if s.Some? && HasTests(db.tests, s.value) then Refreshed(db, s.value)
    else WithRollup(WithSummary(db, run, path, stats), run)
  }

  /** Link a screenshot to the rows of its title, or insert a pending row for it. */
  function ShotPosted(db: Tables, run: nat, path: string, title: string, key: string): (r: Tables)
    requires Wf(db)
    ensures Wf(r)
  {
    var s := SpecAt(db.specs, run, path);
    if s.Some? && ShotLands(db.tests, s.value, title, key) then WithTests(db, WithShot(db.tests, s.value, title, key))
    else if run in db.runs then
      var d := WithSpec(db, run, path);
      Refreshed(WithTests(d, WithShotRow(d.tests, Found(d, run, path), title, key)), Found(d, run, path))
    else db
  }

  // ---------------------------------------------------------------- handlers are runs of statements

  /** A single actor with its statements. */
  function Alone(db: Tables, todo: seq<Query>): Live { Live(db, map[0 := todo]) }

  lemma AloneGoes(db: Tables, q: Query, m: Live)
    requires Wf(db) && Holds(db, q) && m == Alone(db, [q]) && Sound(m)
    ensures Next(m, Go(0)) == Alone(After(db, q), Then(db, q))
  {
    assert m.todo[0][1..] == [];
    assert Then(db, q) + [] == Then(db, q);
  }

  function Goes(n: nat): (r: seq<Step>)
    ensures |r| == n
  {
    if n == 0 then [] else [Go(0)] + Goes(n - 1)
  }

  lemma RunGoes(m: Live, n: nat)
    requires Sound(m) && n > 0
    ensures Run(m, Goes(n)) == Run(Next(m, Go(0)), Goes(n - 1))
  {
    assert Goes(n)[1..] == Goes(n - 1);
  }

  lemma RecomputeRuns(db: Tables, s: nat, m: Live)
    requires Wf(db) && s < |db.specs| && m == Alone(db, [Recompute(s)]) && Sound(m)
    ensures Run(m, Goes(2)) == Alone(Refreshed(db, s), [])
  {
    var d := WithRecomputed(db, s);
    AloneGoes(db, Recompute(s), m);
    AloneGoes(d, Rollup(db.specs[s].run), Next(m, Go(0)));
    RunGoes(m, 2);
    RunGoes(Next(m, Go(0)), 1);
  }

  /** Run to its end, this actor's statements leave these tables. */
  ghost predicate EndsAs(m: Live, db: Tables)
    requires Sound(m)
  {
    exists n: nat :: Run(m, Goes(n)) == Alone(db, [])
  }

  lemma StepEnds(m: Live, n: Live, db: Tables)
    requires Sound(m) && n == Next(m, Go(0)) && EndsAs(n, db)
    ensures EndsAs(m, db)
  {
    var k: nat :| Run(n, Goes(k)) == Alone(db, []);
    RunGoes(m, k + 1);
  }

  lemma DoneEnds(m: Live, db: Tables)
    requires Sound(m) && m == Alone(db, [])
    ensures EndsAs(m, db)
  {
    assert Run(m, Goes(0)) == m;
  }

  lemma RecomputeEnds(db: Tables, s: nat, m: Live)
    requires Wf(db) && s < |db.specs| && m == Alone(db, [Recompute(s)]) && Sound(m)
    ensures EndsAs(m, Refreshed(db, s))
  {
    RecomputeRuns(db, s, m);
  }

  lemma UpdateEnds(d: Tables, s: nat, title: string, o: Outcome, m: Live)
    requires Wf(d) && s < |d.specs| && m == Alone(d, [UpdateRow(s, title, o)]) && Sound(m)
    ensures EndsAs(m, Refreshed(WithTests(d, Ended(d.tests, s, title, o)), s))
  {
    AloneGoes(d, UpdateRow(s, title, o), m);
    var e, n := WithTests(d, Ended(d.tests, s, title, o)), Next(m, Go(0));
    if HasRow(d.tests, s, title) {
      RecomputeEnds(e, s, n);
    } else {
      NoRowNoChange(d.tests, s, title, o);
      AloneGoes(d, PutRow(s, title, o), n);
      RecomputeEnds(e, s, Next(n, Go(0)));
      StepEnds(n, Next(n, Go(0)), Refreshed(e, s));
    }
    StepEnds(m, n, Refreshed(e, s));
  }

  /** test.passed, test.failed and test.skipped. */
  lemma EndTestRuns(db: Tables, q: Query, m: Live)
    requires Wf(db) && q.EndTest? && q.run in db.runs && m == Alone(db, [q]) && Sound(m)
    ensures EndsAs(m, Handle(db, q))
  {
    var d := WithSpec(db, q.run, q.path);
    var s := Found(d, q.run, q.path);
    AloneGoes(db, q, m);
    UpdateEnds(d, s, q.title, q.o, Next(m, Go(0)));
    StepEnds(m, Next(m, Go(0)), Handle(db, q));
  }

  lemma NoRowNoChange(tests: seq<Test>, s: nat, title: string, o: Outcome)
    requires !HasRow(tests, s, title)
    ensures WithOutcome(tests, s, title, o) == tests
  {
  }

  lemma StartTestRuns(db: Tables, q: Query, m: Live)
    requires Wf(db) && q.StartTest? && q.run in db.runs && m == Alone(db, [q]) && Sound(m)
    ensures EndsAs(m, Handle(db, q))
  {
    var d := WithSpec(db, q.run, q.path);
    var s := Found(d, q.run, q.path);
    AloneGoes(db, q, m);
    var n := Next(m, Go(0));
    AloneGoes(d, PutPending(s, q.title), n);
    if HasRow(d.tests, s, q.title) {
      DoneEnds(Next(n, Go(0)), d);
    } else {
      RecomputeEnds(WithTests(d, d.tests + [Test(s, q.title, PENDING, [])]), s, Next(n, Go(0)));
    }
    StepEnds(n, Next(n, Go(0)), Handle(db, q));
    StepEnds(m, n, Handle(db, q));
  }

  lemma SummaryEnds(db: Tables, run: nat, path: string, stats: Stats, m: Live)
    requires Wf(db) && m == Alone(db, [PutSummary(run, path, stats)]) && Sound(m)
    ensures EndsAs(m, WithRollup(WithSummary(db, run, path, stats), run))
  {
    var d, n := WithSummary(db, run, path, stats), Next(m, Go(0));
    AloneGoes(db, PutSummary(run, path, stats), m);
    AloneGoes(d, Rollup(run), n);
    DoneEnds(Next(n, Go(0)), WithRollup(d, run));
    StepEnds(n, Next(n, Go(0)), WithRollup(d, run));
    StepEnds(m, n, WithRollup(d, run));
  }

  lemma CountEnds(db: Tables, s: nat, run: nat, path: string, stats: Stats, m: Live)
    requires Wf(db) && SpecAt(db.specs, run, path) == Some(s)
    requires m == Alone(db, [CountRows(s, run, path, stats)]) && Sound(m)
    ensures EndsAs(m, SpecFinished(db, run, path, stats))
  {
    AloneGoes(db, CountRows(s, run, path, stats), m);
    var n := Next(m, Go(0));
    if HasTests(db.tests, s) { RecomputeEnds(db, s, n); } else { SummaryEnds(db, run, path, stats, n); }
    StepEnds(m, n, SpecFinished(db, run, path, stats));
  }

  /** spec.finished. */
  lemma EndSpecRuns(db: Tables, q: Query, m: Live)
    requires Wf(db) && q.EndSpec? && m == Alone(db, [q]) && Sound(m)
    ensures EndsAs(m, Handle(db, q))
  {
    AloneGoes(db, q, m);
    var s, n := SpecAt(db.specs, q.run, q.path), Next(m, Go(0));
    if s.Some? { CountEnds(db, s.value, q.run, q.path, q.stats, n); } else { SummaryEnds(db, q.run, q.path, q.stats, n); }
    StepEnds(m, n, Handle(db, q));
  }

  lemma ShotSpecEnds(db: Tables, run: nat, path: string, title: string, key: string, m: Live)
    requires Wf(db) && run in db.runs && m == Alone(db, [ShotSpec(run, path, title, key)]) && Sound(m)
    ensures var d := WithSpec(db, run, path); var s := Found(d, run, path);
            EndsAs(m, Refreshed(WithTests(d, WithShotRow(d.tests, s, title, key)), s))
  {
    var d := WithSpec(db, run, path);
    var s := Found(d, run, path);
    var e := WithTests(d, WithShotRow(d.tests, s, title, key));
    AloneGoes(db, ShotSpec(run, path, title, key), m);
    var n := Next(m, Go(0));
    AloneGoes(d, PutShot(s, title, key), n);
    RecomputeEnds(e, s, Next(n, Go(0)));
    StepEnds(n, Next(n, Go(0)), Refreshed(e, s));
    StepEnds(m, n, Refreshed(e, s));
  }

  /** A screenshot upload. */
  lemma ShotRuns(db: Tables, q: Query, m: Live)
    requires Wf(db) && q.Shot? && q.run in db.runs && m == Alone(db, [q]) && Sound(m)
    ensures EndsAs(m, Handle(db, q))
  {
    AloneGoes(db, q, m);
    var s, n := SpecAt(db.specs, q.run, q.path), Next(m, Go(0));
    if s.Some? && ShotLands(db.tests, s.value, q.title, q.key) {
      DoneEnds(n, Handle(db, q));
    } else {
      if s.Some? { NoMatchNoChange(db.tests, s.value, q.title, q.key); }
      ShotSpecEnds(db, q.run, q.path, q.title, q.key, n);
    }
    StepEnds(m, n, Handle(db, q));
  }

  lemma NoMatchNoChange(tests: seq<Test>, s: nat, title: string, key: string)
    requires !ShotLands(tests, s, title, key)
    ensures WithShot(tests, s, title, key) == tests
  {
  }

  // ---------------------------------------------------------------- an abort, spec after spec

  /** The first of several statements. */
  lemma AloneGoesOn(db: Tables, q: Query, rest: seq<Query>, m: Live)
    requires Wf(db) && Holds(db, q) && m == Alone(db, [q] + rest) && Sound(m)
    ensures Next(m, Go(0)) == Alone(After(db, q), Then(db, q) + rest)
  {
    assert m.todo[0][0] == q && m.todo[0][1..] == rest;
  }

  lemma RefreshedLast(db: Tables, front: seq<nat>, last: nat, specs: seq<nat>)
    requires Wf(db) && SpecIds(db, specs) && specs == front + [last]
    ensures SpecIds(db, front) && RefreshedAll(db, specs) == Refreshed(RefreshedAll(db, front), last)
  {
    assert specs[..|specs| - 1] == front && specs[|specs| - 1] == last;
    assert forall i :: 0 <= i < |front| ==> front[i] == specs[i];
  }

  lemma MoveLast(s: nat, rest: seq<nat>, specs: seq<nat>, front: seq<nat>, last: nat, allFront: seq<nat>)
    requires rest != [] && specs == [s] + rest
    requires front == rest[..|rest| - 1] && last == rest[|rest| - 1] && allFront == [s] + front
    ensures specs == allFront + [last] && rest == front + [last]
  {
  }

  lemma RestIds(db: Tables, s: nat, rest: seq<nat>, specs: seq<nat>, d: Tables)
    requires SpecIds(db, specs) && specs == [s] + rest && |d.specs| == |db.specs|
    ensures SpecIds(d, rest)
  {
    assert forall i :: 0 <= i < |rest| ==> rest[i] == specs[i + 1];
  }

  /** Refreshing the first spec before the others is refreshing them in order. */
  lemma {:induction false} RefreshedFirst(db: Tables, s: nat, rest: seq<nat>, specs: seq<nat>, d: Tables)
    requires Wf(db) && SpecIds(db, specs) && specs == [s] + rest && s < |db.specs| && d == Refreshed(db, s)
    ensures SpecIds(d, rest) && RefreshedAll(d, rest) == RefreshedAll(db, specs)
    decreases |rest|
  {
    RestIds(db, s, rest, specs, d);
    if rest == [] {
      RefreshedLast(db, rest, s, specs);
    } else {
      var front, last := rest[..|rest| - 1], rest[|rest| - 1];
      var allFront := [s] + front;
      MoveLast(s, rest, specs, front, last, allFront);
      RefreshedLast(db, allFront, last, specs);
      RefreshedLast(d, front, last, rest);
      RefreshedFirst(db, s, front, allFront, d);
    }
  }

  /** One spec of the loop, with those after it still to come. */
  lemma OneRecomputed(db: Tables, s: nat, rest: seq<Query>, m: Live, d: Tables)
    requires Wf(db) && s < |db.specs| && m == Alone(db, [Recompute(s)] + rest) && Sound(m) && d == Refreshed(db, s)
    ensures Next(Next(m, Go(0)), Go(0)) == Alone(d, rest)
  {
    var run := db.specs[s].run;
    AloneGoesOn(db, Recompute(s), rest, m);
    AloneGoesOn(WithRecomputed(db, s), Rollup(run), rest, Next(m, Go(0)));
    assert [] + rest == rest;
  }

  lemma TwoStepsEnd(m: Live, db: Tables)
    requires Sound(m) && EndsAs(Next(Next(m, Go(0)), Go(0)), db)
    ensures EndsAs(m, db)
  {
    StepEnds(Next(m, Go(0)), Next(Next(m, Go(0)), Go(0)), db);
    StepEnds(m, Next(m, Go(0)), db);
  }

  lemma {:induction false} RecomputesEnd(db: Tables, specs: seq<nat>, m: Live)
    requires Wf(db) && SpecIds(db, specs) && m == Alone(db, Recomputes(specs)) && Sound(m)
    ensures EndsAs(m, RefreshedAll(db, specs))
    decreases |specs|
  {
    if specs == [] {
      DoneEnds(m, db);
    } else {
      var s, rest := specs[0], specs[1..];
      var d := Refreshed(db, s);
      assert specs == [s] + rest;
      RefreshedFirst(db, s, rest, specs, d);
      OneRecomputed(db, s, Recomputes(rest), m, d);
      RecomputesEnd(d, rest, Next(Next(m, Go(0)), Go(0)));
      TwoStepsEnd(m, RefreshedAll(d, rest));
    }
  }

  /** run.aborted: the pending rows, and then every spec that had one. */
  lemma AbortRuns(db: Tables, q: Query, m: Live)
    requires Wf(db) && q.Abort? && m == Alone(db, [q]) && Sound(m)
    ensures EndsAs(m, Handle(db, q))
  {
    var specs := AbortedSpecs(db, q.run, |db.tests|);
    var d := WithTests(db, WithAborted(db, q.run, q.error));
    AbortedIds(db, q.run);
    AloneGoes(db, q, m);
    RecomputesEnd(d, specs, Next(m, Go(0)));
    StepEnds(m, Next(m, Go(0)), Handle(db, q));
  }
}
