// Everything that writes a live run at once: the event queues, the aborts and the screenshot
// uploads, each a list of statements, interleaved in any order.
module LiveRaces {
  import opened Text
  import opened LiveTables

  /** A statement, with what its handler needs to decide the next one. */
  datatype Query =
    // what arrives
    | StartSpec(run: nat, path: string)
    | StartTest(run: nat, path: string, title: string)
    | EndTest(run: nat, path: string, title: string, o: Outcome)
    | EndSpec(run: nat, path: string, stats: Stats)
    | Shot(run: nat, path: string, title: string, key: string)
    | Abort(run: nat, error: string)
    // what follows
    | PutPending(s: nat, title: string)
    | UpdateRow(s: nat, title: string, o: Outcome)
    | PutRow(s: nat, title: string, o: Outcome)
    | CountRows(s: nat, run: nat, path: string, stats: Stats)
    | PutSummary(run: nat, path: string, stats: Stats)
    | ShotSpec(run: nat, path: string, title: string, key: string)
    | PutShot(s: nat, title: string, key: string)
    | Recompute(s: nat)
    | Rollup(run: nat)

  predicate Arrives(q: Query) {
    q.StartSpec? || q.StartTest? || q.EndTest? || q.EndSpec? || q.Shot? || q.Abort?
  }

  /** The ids a statement holds are ids of rows that exist. */
  predicate Holds(db: Tables, q: Query) {
    (q.PutPending? || q.UpdateRow? || q.PutRow? || q.CountRows? || q.PutShot? || q.Recompute?) ==> q.s < |db.specs|
  }

  function Found(db: Tables, run: nat, path: string): nat
    requires SpecAt(db.specs, run, path).Some?
  {
    SpecAt(db.specs, run, path).value
  }

  function Recomputes(specs: seq<nat>): (r: seq<Query>)
    ensures forall q :: q in r ==> q.Recompute? && q.s in specs
    ensures forall s :: s in specs ==> Recompute(s) in r
  {
    if specs == [] then [] else [Recompute(specs[0])] + Recomputes(specs[1..])
  }

  /** The tables after a statement. A spec of a run that is gone cannot be created. */
  function After(db: Tables, q: Query): (r: Tables)
    requires Wf(db) && Holds(db, q)
    ensures Wf(r) && |db.specs| <= |r.specs| && r.runs.Keys == db.runs.Keys
  {
    match q
    case StartSpec(run, path) => if run in db.runs then WithSpec(db, run, path) else db
    case StartTest(run, path, _) => if run in db.runs then WithSpec(db, run, path) else db
    case EndTest(run, path, _, _) => if run in db.runs then WithSpec(db, run, path) else db
    case ShotSpec(run, path, _, _) => if run in db.runs then WithSpec(db, run, path) else db
    case EndSpec(_, _, _) => db
    case CountRows(_, _, _, _) => db
    case Shot(run, path, title, key) =>
      var s := SpecAt(db.specs, run, path);
      if s.Some? then db.(tests := WithShot(db.tests, s.value, title, key)) else db
    case Abort(run, error) => db.(tests := WithAborted(db, run, error))
    case PutPending(s, title) => db.(tests := WithPending(db.tests, s, title))
    case UpdateRow(s, title, o) => db.(tests := WithOutcome(db.tests, s, title, o))
    case PutRow(s, title, o) => db.(tests := db.tests + [Test(s, title, o, [])])
    case PutSummary(run, path, stats) => WithSummary(db, run, path, stats)
    case PutShot(s, title, key) => db.(tests := WithShotRow(db.tests, s, title, key))
    case Recompute(s) => WithRecomputed(db, s)
    case Rollup(run) => WithRollup(db, run)
  }

  /** The statements the handler issues next. */
  function Then(db: Tables, q: Query): seq<Query>
    requires Wf(db) && Holds(db, q)
  {
    match q
    case StartSpec(_, _) => []
    case StartTest(run, path, title) =>
      if run in db.runs then [PutPending(Found(WithSpec(db, run, path), run, path), title)] else []
    case EndTest(run, path, title, o) =>
      if run in db.runs then [UpdateRow(Found(WithSpec(db, run, path), run, path), title, o)] else []
    case ShotSpec(run, path, title, key) =>
      if run in db.runs then [PutShot(Found(WithSpec(db, run, path), run, path), title, key)] else []
    case EndSpec(run, path, stats) =>
      var s := SpecAt(db.specs, run, path);
      if s.Some? then [CountRows(s.value, run, path, stats)] else [PutSummary(run, path, stats)]
    case CountRows(s, run, path, stats) =>
      if HasTests(db.tests, s) then [Recompute(s)] else [PutSummary(run, path, stats)]
    case Shot(run, path, title, key) =>
      var s := SpecAt(db.specs, run, path);
      if s.Some? && ShotLands(db.tests, s.value, title, key) then [] else [ShotSpec(run, path, title, key)]
    case Abort(run, _) => Recomputes(AbortedSpecs(db, run, |db.tests|))
    case PutPending(s, title) => if HasRow(db.tests, s, title) then [] else [Recompute(s)]
    case UpdateRow(s, title, o) => if HasRow(db.tests, s, title) then [Recompute(s)] else [PutRow(s, title, o)]
    case PutRow(s, _, _) => [Recompute(s)]
    case PutSummary(run, _, _) => [Rollup(run)]
    case PutShot(s, _, _) => [Recompute(s)]
    case Recompute(s) => [Rollup(db.specs[s].run)]
    case Rollup(_) => []
  }

  /** Everyone at work: the tables and each actor's statements still to issue. */
  datatype Live = Live(db: Tables, todo: map<nat, seq<Query>>)

  datatype Step = Arrive(actor: nat, q: Query) | Go(actor: nat)

  function Todo(m: Live, actor: nat): seq<Query> {
    if actor in m.todo then m.todo[actor] else []
  }

  predicate Sound(m: Live) {
    Wf(m.db) && forall a, q :: a in m.todo && q in m.todo[a] ==> Holds(m.db, q)
  }

  predicate Enabled(m: Live, step: Step) {
    match step
    case Arrive(_, q) => Arrives(q)
    case Go(a) => Todo(m, a) != []
  }

  /** The next statement of an actor, or an arrival. A step that is not enabled changes nothing. */
  function Next(m: Live, step: Step): (n: Live)
    requires Sound(m)
    ensures Sound(n)
  {
    if !Enabled(m, step) then m
    else
      match step
      case Arrive(a, q) => m.(todo := m.todo[a := Todo(m, a) + [q]])
      case Go(a) =>
        var head, rest := m.todo[a][0], m.todo[a][1..];
        assert head in m.todo[a] && m.todo[a] == [head] + rest;
        var n := Live(After(m.db, head), m.todo[a := Then(m.db, head) + rest]);
        GoKeepsSound(m, a, head, rest, n);
        n
  }

  predicate Owed(m: Live, q: Query) {
    exists a :: a in m.todo && q in m.todo[a]
  }

  predicate SpecInv(m: Live, s: nat)
    requires s < |m.db.specs|
  {
    SpecExact(m.db, s) || Owed(m, Recompute(s))
  }

  predicate RunInv(m: Live, run: nat)
    requires run in m.db.runs
  {
    RunExact(m.db, run) || Owed(m, Rollup(run))
  }

  /** Whatever aggregate is wrong, somebody is still going to recompute it. */
  predicate Inv(m: Live) {
    && Sound(m)
    && (forall s :: 0 <= s < |m.db.specs| ==> SpecInv(m, s))
    && (forall run :: run in m.db.runs ==> RunInv(m, run))
  }

  predicate Quiet(m: Live) {
    forall a :: a in m.todo ==> m.todo[a] == []
  }

  // ---------------------------------------------------------------- one statement and one spec

  /** A summary that overwrites spec s although its rows say otherwise: they arrived since the handler counted none. */
  predicate Overwrites(db: Tables, q: Query, s: nat)
    requires Wf(db) && s < |db.specs|
  {
    q.PutSummary? && SpecAt(db.specs, q.run, q.path) == Some(s)
    && HasTests(db.tests, s) && Summarised(db.specs[s].counts, q.stats) != CountTests(db.tests, s)
  }

  /** A summary that overwrites the counters of rows. */
  predicate Harmful(db: Tables, q: Query)
    requires Wf(db)
  {
    q.PutSummary? && SpecAt(db.specs, q.run, q.path).Some? && Overwrites(db, q, Found(db, q.run, q.path))
  }

  /** Rows of spec s unchanged, as far as counting sees. */
  predicate SameCounted(a: seq<Test>, b: seq<Test>, s: nat) {
    (HasTests(b, s) ==> HasTests(a, s)) && CountTests(a, s) == CountTests(b, s)
  }

  lemma SameRows(a: seq<Test>, b: seq<Test>, s: nat)
    requires |a| == |b|
    requires forall i :: 0 <= i < |a| ==> a[i].spec == b[i].spec && (a[i].spec == s ==> a[i].outcome == b[i].outcome)
    ensures SameCounted(a, b, s)
  {
    CountSame(a, b, s);
    if HasTests(b, s) {
      var i :| 0 <= i < |b| && b[i].spec == s;
      assert a[i].spec == s;
    }
  }

  lemma AppendOther(tests: seq<Test>, test: Test, s: nat)
    requires test.spec != s
    ensures SameCounted(tests, tests + [test], s)
  {
    CountAppend(tests, test, s);
    AddZero(CountTests(tests, s));
    NoneInFront(tests + [test], tests, test, s);
  }

  /** A statement on test rows either leaves spec s counting the same, or its handler recomputes s next. */
  lemma RowsChange(db: Tables, q: Query, s: nat)
    requires Wf(db) && Holds(db, q) && s < |db.specs|
    requires q.Shot? || q.Abort? || q.PutPending? || q.UpdateRow? || q.PutRow? || q.PutShot?
    ensures SameCounted(db.tests, After(db, q).tests, s) || Recompute(s) in Then(db, q)
  {
    var b := After(db, q).tests;
    match q
    case Shot(run, path, title, key) => SameRows(db.tests, b, s);
    case Abort(run, error) =>
      if s !in AbortedSpecs(db, run, |db.tests|) { SameRows(db.tests, b, s); }
    case PutPending(t, title) =>
      if !HasRow(db.tests, t, title) && t != s { AppendOther(db.tests, Test(t, title, PENDING, []), s); }
    case UpdateRow(t, title, o) =>
      if t != s || !HasRow(db.tests, t, title) { SameRows(db.tests, b, s); }
    case PutRow(t, title, o) =>
      if t != s { AppendOther(db.tests, Test(t, title, o, []), s); }
    case PutShot(t, title, key) =>
      if t != s {
        if HasPending(db.tests, t, title) { SameRows(db.tests, b, s); }
        else { AppendOther(db.tests, Test(t, title, PENDING, [key]), s); }
      }
  }

  lemma SpecChange(db: Tables, q: Query, s: nat)
    requires Wf(db) && Holds(db, q) && s < |db.specs| && !Overwrites(db, q, s)
    requires SpecExact(db, s)
    ensures SpecExact(After(db, q), s) || Recompute(s) in Then(db, q)
  {
    match q
    case StartSpec(run, path) =>
    case StartTest(run, path, _) =>
    case EndTest(run, path, _, _) =>
    case ShotSpec(run, path, _, _) =>
    case EndSpec(_, _, _) =>
    case CountRows(_, _, _, _) =>
    case PutSummary(run, path, stats) =>
    case Recompute(t) =>
    case Rollup(run) =>
    case _ => RowsChange(db, q, s);
  }

  /** A spec just created has no rows. */
  lemma NewSpec(db: Tables, q: Query, s: nat)
    requires Wf(db) && Holds(db, q) && |db.specs| <= s < |After(db, q).specs|
    ensures SpecExact(After(db, q), s)
  {
    assert After(db, q).tests == db.tests;
    assert !HasTests(db.tests, s);
  }

  // ---------------------------------------------------------------- one statement and one run

  lemma SumWithSpec(db: Tables, run: nat, path: string, other: nat)
    requires Wf(db) && run in db.runs
    ensures SumSpecs(WithSpec(db, run, path).specs, other) == SumSpecs(db.specs, other)
  {
    SumNew(db.specs, Spec(run, path, ZERO), other);
  }

  lemma RunChange(db: Tables, q: Query, run: nat)
    requires Wf(db) && Holds(db, q) && run in db.runs && RunExact(db, run)
    ensures RunExact(After(db, q), run) || Rollup(run) in Then(db, q)
  {
    match q
    case StartSpec(r, path) => if r in db.runs { SumWithSpec(db, r, path, run); }
    case StartTest(r, path, _) => if r in db.runs { SumWithSpec(db, r, path, run); }
    case EndTest(r, path, _, _) => if r in db.runs { SumWithSpec(db, r, path, run); }
    case ShotSpec(r, path, _, _) => if r in db.runs { SumWithSpec(db, r, path, run); }
    case PutSummary(r, path, stats) =>
      var s := SpecAt(db.specs, r, path);
      if r != run && s.Some? {
        SumOther(db.specs, s.value, Summarised(db.specs[s.value].counts, stats), run);
      }
    case Recompute(s) =>
      if db.specs[s].run != run { SumOther(db.specs, s, CountTests(db.tests, s), run); }
    case _ =>
  }

  // ---------------------------------------------------------------- one step

  lemma OwedStays(m: Live, a: nat, q: Query, n: Live)
    requires Sound(m) && Todo(m, a) != [] && n == Next(m, Go(a))
    requires Owed(m, q) && q != m.todo[a][0]
    ensures Owed(n, q)
  {
    var b :| b in m.todo && q in m.todo[b];
    if b == a {
      assert q in m.todo[a][1..];
      assert q in n.todo[a];
    } else {
      assert q in n.todo[b];
    }
  }

  lemma OwedNow(m: Live, a: nat, q: Query, n: Live)
    requires Sound(m) && Todo(m, a) != [] && n == Next(m, Go(a)) && q in Then(m.db, m.todo[a][0])
    ensures Owed(n, q)
  {
    assert q in n.todo[a];
  }

  /** A statement keeps a spec exact or owed, unless it overwrites it with nobody left to recompute it. */
  lemma GoKeepsSpec(m: Live, a: nat, n: Live, s: nat)
    requires Inv(m) && Todo(m, a) != [] && n == Next(m, Go(a)) && s < |n.db.specs|
    requires s < |m.db.specs| && Overwrites(m.db, m.todo[a][0], s) ==> Owed(m, Recompute(s))
    ensures SpecInv(n, s)
  {
    var head := m.todo[a][0];
    assert head in m.todo[a];
    if s >= |m.db.specs| {
      NewSpec(m.db, head, s);
    } else if Owed(m, Recompute(s)) && head != Recompute(s) {
      OwedStays(m, a, Recompute(s), n);
    } else {
      assert SpecInv(m, s);
      if head != Recompute(s) {
        SpecChange(m.db, head, s);
        if Recompute(s) in Then(m.db, head) { OwedNow(m, a, Recompute(s), n); }
      }
    }
  }

  lemma GoKeepsRun(m: Live, a: nat, n: Live, run: nat)
    requires Inv(m) && Todo(m, a) != [] && n == Next(m, Go(a)) && run in n.db.runs
    ensures RunInv(n, run)
  {
    var head := m.todo[a][0];
    assert head in m.todo[a];
    assert run in m.db.runs.Keys;
    assert RunInv(m, run);
    if RunExact(m.db, run) {
      RunChange(m.db, head, run);
      if Rollup(run) in Then(m.db, head) { OwedNow(m, a, Rollup(run), n); }
    } else if head != Rollup(run) {
      OwedStays(m, a, Rollup(run), n);
    }
  }

  lemma ThenHolds(db: Tables, q: Query, next: Query)
    requires Wf(db) && Holds(db, q) && next in Then(db, q)
    ensures Holds(After(db, q), next)
  {
    if q.Abort? {
      var specs := AbortedSpecs(db, q.run, |db.tests|);
      assert next.Recompute? && next.s in specs;
    }
  }

  lemma GoKeepsSound(m: Live, a: nat, head: Query, rest: seq<Query>, n: Live)
    requires Sound(m) && a in m.todo && m.todo[a] == [head] + rest && Holds(m.db, head)
    requires n == Live(After(m.db, head), m.todo[a := Then(m.db, head) + rest])
    ensures Sound(n)
  {
    forall b, q | b in n.todo && q in n.todo[b] ensures Holds(n.db, q) {
      if b == a && q in Then(m.db, head) {
        ThenHolds(m.db, head, q);
      } else {
        assert b in m.todo && q in m.todo[b] && Holds(m.db, q);
      }
    }
  }

  lemma GoKeepsInv(m: Live, a: nat, n: Live)
    requires Inv(m) && Todo(m, a) != [] && n == Next(m, Go(a))
    requires forall s :: 0 <= s < |m.db.specs| && Overwrites(m.db, m.todo[a][0], s) ==> Owed(m, Recompute(s))
    ensures Inv(n)
  {
    forall s | 0 <= s < |n.db.specs| ensures SpecInv(n, s) { GoKeepsSpec(m, a, n, s); }
    forall run | run in n.db.runs ensures RunInv(n, run) { GoKeepsRun(m, a, n, run); }
  }

  lemma ArriveKeepsOwed(m: Live, a: nat, q: Query, n: Live, p: Query)
    requires n == m.(todo := m.todo[a := Todo(m, a) + [q]]) && Owed(m, p)
    ensures Owed(n, p)
  {
    var b :| b in m.todo && p in m.todo[b];
    assert p in n.todo[b];
  }

  lemma ArriveKeepsInv(m: Live, a: nat, q: Query, n: Live)
    requires Inv(m) && Arrives(q) && n == Next(m, Arrive(a, q))
    ensures Inv(n)
  {
    forall s | 0 <= s < |n.db.specs| ensures SpecInv(n, s) {
      assert SpecInv(m, s);
      if Owed(m, Recompute(s)) { ArriveKeepsOwed(m, a, q, n, Recompute(s)); }
    }
    forall run | run in n.db.runs ensures RunInv(n, run) {
      assert RunInv(m, run);
      if Owed(m, Rollup(run)) { ArriveKeepsOwed(m, a, q, n, Rollup(run)); }
    }
  }

  // ---------------------------------------------------------------- whole runs

  function Run(m: Live, steps: seq<Step>): (n: Live)
    requires Sound(m)
    ensures Sound(n)
    decreases |steps|
  {
    if steps == [] then m else Run(Next(m, steps[0]), steps[1..])
  }

  /** A run in which no summary overwrites counted aggregates. */
  predicate Calm(m: Live, steps: seq<Step>)
    requires Sound(m)
    decreases |steps|
  {
    steps == [] ||
    (!(steps[0].Go? && Enabled(m, steps[0]) && Harmful(m.db, m.todo[steps[0].actor][0]))
     && Calm(Next(m, steps[0]), steps[1..]))
  }

  lemma NextKeepsInv(m: Live, step: Step, n: Live)
    requires Inv(m) && n == Next(m, step)
    requires step.Go? && Enabled(m, step) ==> !Harmful(m.db, m.todo[step.actor][0])
    ensures Inv(n)
  {
    if Enabled(m, step) {
      match step
      case Arrive(a, q) => ArriveKeepsInv(m, a, q, n);
      case Go(a) => GoKeepsInv(m, a, n);
    }
  }

  lemma {:induction false} RunKeepsInv(m: Live, steps: seq<Step>)
    requires Inv(m) && Calm(m, steps)
    ensures Inv(Run(m, steps))
    decreases |steps|
  {
    if steps != [] {
      NextKeepsInv(m, steps[0], Next(m, steps[0]));
      RunKeepsInv(Next(m, steps[0]), steps[1..]);
    }
  }

  lemma QuietIsExact(m: Live)
    requires Inv(m) && Quiet(m)
    ensures Exact(m.db)
  {
    forall q ensures !Owed(m, q) {
    }
    forall s | 0 <= s < |m.db.specs| ensures SpecExact(m.db, s) {
      assert SpecInv(m, s);
    }
    forall run | run in m.db.runs ensures RunExact(m.db, run) {
      assert RunInv(m, run);
    }
  }

  /** Whatever the events, aborts and screenshots, in whatever interleaving: once nothing is left to do, every
      spec with rows holds the counts of its rows and every run the sum of its specs. */
  lemma AggregatesExact(m: Live, steps: seq<Step>)
    requires Sound(m) && Exact(m.db) && Calm(m, steps) && Quiet(Run(m, steps))
    ensures Exact(Run(m, steps).db)
  {
    RunKeepsInv(m, steps);
    QuietIsExact(Run(m, steps));
  }

  // ---------------------------------------------------------------- counters that add up

  predicate StatsAdd(stats: Stats) {
    && stats.total == stats.passed + stats.failed + stats.skipped
    && stats.passed >= 0 && stats.failed >= 0 && stats.skipped >= 0
  }

  /** The summaries on their way add up. */
  predicate PayloadAdds(q: Query) {
    (q.EndSpec? || q.CountRows? || q.PutSummary?) ==> StatsAdd(q.stats)
  }

  predicate PayloadsAdd(m: Live) {
    forall a, q :: a in m.todo && q in m.todo[a] ==> PayloadAdds(q)
  }

  lemma RowsStay(db: Tables, q: Query, s: nat)
    requires Wf(db) && Holds(db, q) && HasTests(db.tests, s)
    ensures HasTests(After(db, q).tests, s)
  {
    var i :| 0 <= i < |db.tests| && db.tests[i].spec == s;
    assert After(db, q).tests[i].spec == s;
  }

  lemma CountsBalanced(db: Tables, s: nat, r: Tables)
    requires Wf(db) && s < |db.specs| && r == WithRecomputed(db, s)
    ensures SpecBalanced(r, s)
  {
    CountAdds(db.tests, s);
    if !HasTests(db.tests, s) { NothingPending(db.tests, s); }
    assert r.specs[s].counts == CountTests(db.tests, s);
  }

  lemma NothingPending(tests: seq<Test>, s: nat)
    requires !HasTests(tests, s)
    ensures CountTests(tests, s).pending == 0
  {
    CountNone(tests, s);
  }

  /** Overwriting the counters of a spec with nothing pending by a summary that adds up. */
  lemma SummaryAdds(c: Counts, stats: Stats)
    requires StatsAdd(stats) && NonNegative(c) && c.pending == 0
    ensures Adds(Summarised(c, stats)) && NonNegative(Summarised(c, stats))
  {
  }

  lemma SummaryBalanced(db: Tables, q: Query, s: nat)
    requires Wf(db) && q.PutSummary? && SpecAt(db.specs, q.run, q.path) == Some(s) && !Harmful(db, q) && StatsAdd(q.stats)
    requires SpecBalanced(db, s)
    ensures SpecBalanced(After(db, q), s)
  {
    assert After(db, q).specs[s].counts == Summarised(db.specs[s].counts, q.stats);
    if HasTests(db.tests, s) { CountAdds(db.tests, s); } else { SummaryAdds(db.specs[s].counts, q.stats); }
  }

  lemma StepKeepsBalance(db: Tables, q: Query, s: nat)
    requires Wf(db) && Holds(db, q) && s < |db.specs| && !Harmful(db, q) && PayloadAdds(q) && SpecBalanced(db, s)
    ensures SpecBalanced(After(db, q), s)
  {
    if HasTests(db.tests, s) { RowsStay(db, q, s); }
    match q
    case Recompute(t) => if t == s { CountsBalanced(db, s, After(db, q)); }
    case PutSummary(run, path, _) =>
      var t := SpecAt(db.specs, run, path);
      if t == Some(s) { SummaryBalanced(db, q, s); }
    case _ =>
  }

  lemma ThenAdds(db: Tables, q: Query, next: Query)
    requires Wf(db) && Holds(db, q) && PayloadAdds(q) && next in Then(db, q)
    ensures PayloadAdds(next)
  {
    if q.Abort? { assert next.Recompute?; }
  }

  lemma GoKeepsPayloads(m: Live, a: nat, n: Live)
    requires Sound(m) && PayloadsAdd(m) && Todo(m, a) != [] && n == Next(m, Go(a))
    ensures PayloadsAdd(n)
  {
    var head := m.todo[a][0];
    assert head in m.todo[a];
    forall b, q | b in n.todo && q in n.todo[b] ensures PayloadAdds(q) {
      if b == a && q in Then(m.db, head) {
        ThenAdds(m.db, head, q);
      } else {
        if b == a { assert q in m.todo[a][1..]; }
        assert b in m.todo && q in m.todo[b];
      }
    }
  }

  lemma GoKeepsBalance(m: Live, a: nat, n: Live)
    requires Sound(m) && PayloadsAdd(m) && Balanced(m.db) && Todo(m, a) != [] && n == Next(m, Go(a))
    requires !Harmful(m.db, m.todo[a][0])
    ensures PayloadsAdd(n) && Balanced(n.db)
  {
    var head := m.todo[a][0];
    assert head in m.todo[a];
    GoKeepsPayloads(m, a, n);
    forall s | 0 <= s < |n.db.specs| ensures SpecBalanced(n.db, s) {
      if s < |m.db.specs| {
        assert SpecBalanced(m.db, s);
        StepKeepsBalance(m.db, head, s);
      } else {
        NewSpecBalanced(m.db, head, s);
      }
    }
  }

  lemma NewSpecBalanced(db: Tables, q: Query, s: nat)
    requires Wf(db) && Holds(db, q) && |db.specs| <= s < |After(db, q).specs|
    ensures SpecBalanced(After(db, q), s)
  {
  }

  /** The summaries that arrive during a run add up. */
  predicate ArrivalsAdd(steps: seq<Step>) {
    forall step :: step in steps && step.Arrive? ==> PayloadAdds(step.q)
  }

  lemma NextKeepsBalance(m: Live, step: Step, n: Live)
    requires Sound(m) && n == Next(m, step) && PayloadsAdd(m) && Balanced(m.db)
    requires step.Arrive? ==> PayloadAdds(step.q)
    requires step.Go? && Enabled(m, step) ==> !Harmful(m.db, m.todo[step.actor][0])
    ensures PayloadsAdd(n) && Balanced(n.db)
  {
    if Enabled(m, step) && step.Go? { GoKeepsBalance(m, step.actor, n); }
  }

  lemma {:induction false} RunKeepsBalance(m: Live, steps: seq<Step>)
    requires Sound(m) && Calm(m, steps) && ArrivalsAdd(steps) && PayloadsAdd(m) && Balanced(m.db)
    ensures Balanced(Run(m, steps).db)
    decreases |steps|
  {
    if steps != [] {
      assert steps[0] in steps;
      NextKeepsBalance(m, steps[0], Next(m, steps[0]));
      RunKeepsBalance(Next(m, steps[0]), steps[1..]);
    }
  }

  /** When the summaries themselves add up, every spec's counters and every run's counters do too. */
  lemma TotalsAddUp(m: Live, steps: seq<Step>, run: nat)
    requires Sound(m) && Exact(m.db) && Balanced(m.db) && PayloadsAdd(m)
    requires Calm(m, steps) && ArrivalsAdd(steps) && Quiet(Run(m, steps))
    requires run in Run(m, steps).db.runs
    ensures var counts := Run(m, steps).db.runs[run]; Adds(counts) && NonNegative(counts)
  {
    AggregatesExact(m, steps);
    RunKeepsBalance(m, steps);
    var db := Run(m, steps).db;
    assert RunExact(db, run);
    BalancedParts(db);
    SumAdds(db.specs, run);
  }
}
