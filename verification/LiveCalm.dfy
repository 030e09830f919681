// When a run's own queue issues every statement about it, beside uploads that are not under way together
// with a spec.finished of a spec without rows, no summary ever overwrites counted aggregates.
module LiveCalm {
  import opened Text
  import opened LiveTables
  import opened LiveRaces

  /** The run a statement is about. */
  function RunOf(db: Tables, q: Query): nat
    requires Holds(db, q)
  {
    match q
    case PutPending(s, _) => db.specs[s].run
    case UpdateRow(s, _, _) => db.specs[s].run
    case PutRow(s, _, _) => db.specs[s].run
    case PutShot(s, _, _) => db.specs[s].run
    case Recompute(s) => db.specs[s].run
    case StartSpec(run, _) => run
    case StartTest(run, _, _) => run
    case EndTest(run, _, _, _) => run
    case EndSpec(run, _, _) => run
    case Shot(run, _, _, _) => run
    case Abort(run, _) => run
    case CountRows(_, run, _, _) => run
    case PutSummary(run, _, _) => run
    case ShotSpec(run, _, _, _) => run
    case Rollup(run) => run
  }

  /** A spec that does not exist or has no rows. */
  predicate NoRows(db: Tables, run: nat, path: string) {
    var s := SpecAt(db.specs, run, path);
    s.None? || !HasTests(db.tests, s.value)
  }

  /** A handler that counted no rows writes its summary next, and there are still none. */
  predicate SummaryReady(db: Tables, queue: seq<Query>, i: nat)
    requires i < |queue|
  {
    && (queue[i].PutSummary? ==> i == 0 && NoRows(db, queue[i].run, queue[i].path))
    && (queue[i].CountRows? ==> SpecAt(db.specs, queue[i].run, queue[i].path) == Some(queue[i].s))
  }

  /** The spec exists and has rows. */
  predicate HasRows(db: Tables, run: nat, path: string) {
    var s := SpecAt(db.specs, run, path);
    s.Some? && HasTests(db.tests, s.value)
  }

  /** A statement of an upload. */
  predicate UploadStep(q: Query) {
    q.Shot? || q.ShotSpec? || q.PutShot? || q.Recompute? || q.Rollup?
  }

  /** A statement of spec.finished, up to the write of its summary. */
  predicate SummaryStep(q: Query) {
    q.EndSpec? || q.CountRows? || q.PutSummary?
  }

  /** An upload, up to the insert of its row, for this run and path. */
  predicate UploadFor(db: Tables, q: Query, run: nat, path: string) {
    match q
    case Shot(r, p, _, _) => r == run && p == path
    case ShotSpec(r, p, _, _) => r == run && p == path
    case PutShot(s, _, _) => s < |db.specs| && db.specs[s].run == run && db.specs[s].path == path
    case _ => false
  }

  /** An upload by another actor than the run's queue, and a spec.finished, of one spec that has no rows. */
  predicate Collides(db: Tables, owner: nat -> nat, a: nat, upload: Query, q: Query) {
    SummaryStep(q) && UploadFor(db, upload, q.run, q.path) && owner(q.run) != a && NoRows(db, q.run, q.path)
  }

  /** A statement is in its run's queue, or an upload's. */
  predicate Placed(db: Tables, owner: nat -> nat, a: nat, queue: seq<Query>, i: nat)
    requires i < |queue|
  {
    Holds(db, queue[i])
    && (UploadStep(queue[i]) || (owner(RunOf(db, queue[i])) == a && SummaryReady(db, queue, i)))
  }

  /** No spec without rows has both an upload and a spec.finished under way. */
  predicate Apart(m: Live, owner: nat -> nat) {
    forall a, b, upload, q :: a in m.todo && upload in m.todo[a] && b in m.todo && q in m.todo[b] ==>
      !Collides(m.db, owner, a, upload, q)
  }

  predicate Queued(m: Live, owner: nat -> nat)
    requires Sound(m)
  {
    Apart(m, owner)
    && forall a, i :: a in m.todo && 0 <= i < |m.todo[a]| ==> Placed(m.db, owner, a, m.todo[a], i)
  }

  lemma {:induction false} SpecAtSame(a: seq<Spec>, b: seq<Spec>, run: nat, path: string)
    requires |a| == |b| && forall i :: 0 <= i < |a| ==> a[i].run == b[i].run && a[i].path == b[i].path
    ensures SpecAt(a, run, path) == SpecAt(b, run, path)
  {
    if a != [] { SpecAtSame(a[..|a| - 1], b[..|b| - 1], run, path); }
  }

  lemma SpecAtNew(specs: seq<Spec>, spec: Spec, run: nat, path: string)
    ensures SpecAt(specs + [spec], run, path)
            == if spec.run == run && spec.path == path then Some(|specs|) else SpecAt(specs, run, path)
  {
    assert (specs + [spec])[..|specs|] == specs;
  }

  /** A spec that is found stays found at its place. */
  lemma SpecStays(db: Tables, q: Query, run: nat, path: string, s: nat)
    requires Wf(db) && Holds(db, q) && SpecAt(db.specs, run, path) == Some(s)
    ensures SpecAt(After(db, q).specs, run, path) == Some(s)
  {
    var r := After(db, q);
    assert r.specs[s].run == run && r.specs[s].path == path by { SpecKeeps(db, q, s); }
    SpecAtIs(r.specs, s);
  }

  /** No statement changes which run and path a spec is for. */
  lemma SpecKeeps(db: Tables, q: Query, s: nat)
    requires Wf(db) && Holds(db, q) && s < |db.specs|
    ensures After(db, q).specs[s].run == db.specs[s].run && After(db, q).specs[s].path == db.specs[s].path
  {
  }

  lemma GrownSpecs(db: Tables, q: Query, r: Tables)
    requires Wf(db) && Holds(db, q) && r == After(db, q) && |r.specs| != |db.specs|
    ensures (q.StartSpec? || q.StartTest? || q.EndTest? || q.ShotSpec?) && RunOf(db, q) == q.run
    ensures r.specs == db.specs + [Spec(q.run, q.path, ZERO)]
  {
  }

  lemma OtherSpec(db: Tables, q: Query, run: nat, path: string)
    requires Wf(db) && Holds(db, q) && RunOf(db, q) != run
    ensures SpecAt(After(db, q).specs, run, path) == SpecAt(db.specs, run, path)
  {
    var r := After(db, q);
    if |r.specs| == |db.specs| {
      forall i | 0 <= i < |db.specs| ensures r.specs[i].run == db.specs[i].run && r.specs[i].path == db.specs[i].path {
        SpecKeeps(db, q, i);
      }
      SpecAtSame(db.specs, r.specs, run, path);
    } else {
      GrownSpecs(db, q, r);
      SpecAtNew(db.specs, Spec(q.run, q.path, ZERO), run, path);
    }
  }

  /** A statement about one run adds no rows to another run's specs. */
  lemma OtherRows(db: Tables, q: Query, s: nat)
    requires Wf(db) && Holds(db, q) && s < |db.specs| && RunOf(db, q) != db.specs[s].run && HasTests(After(db, q).tests, s)
    ensures HasTests(db.tests, s)
  {
    var i :| 0 <= i < |After(db, q).tests| && After(db, q).tests[i].spec == s;
    if i < |db.tests| { assert db.tests[i].spec == s; }
  }

  lemma OtherRun(db: Tables, q: Query, run: nat, path: string)
    requires Wf(db) && Holds(db, q) && RunOf(db, q) != run && NoRows(db, run, path)
    ensures NoRows(After(db, q), run, path)
  {
    OtherSpec(db, q, run, path);
    var s := SpecAt(db.specs, run, path);
    if s.Some? && HasTests(After(db, q).tests, s.value) { OtherRows(db, q, s.value); }
  }

  lemma FoundIs(db: Tables, run: nat, path: string)
    requires Wf(db) && run in db.runs
    ensures var d := WithSpec(db, run, path); var s := Found(d, run, path);
            s < |d.specs| && d.specs[s].run == run && d.specs[s].path == path
  {
  }

  lemma AbortSameRun(db: Tables, run: nat, error: string, next: Query)
    requires Wf(db) && next in Then(db, Abort(run, error))
    ensures next.Recompute? && next.s < |db.specs| && db.specs[next.s].run == run
  {
    assert next.s in AbortedSpecs(db, run, |db.tests|);
  }

  /** What follows a statement is about the same run, and a summary among it is ready. */
  lemma ThenSameRun(db: Tables, q: Query, next: Query)
    requires Wf(db) && Holds(db, q) && next in Then(db, q)
    ensures Holds(After(db, q), next)
    ensures RunOf(After(db, q), next) == RunOf(db, q) || (q.CountRows? && SpecAt(db.specs, q.run, q.path) != Some(q.s))
  {
    ThenHolds(db, q, next);
    match q
    case Abort(run, error) => AbortSameRun(db, run, error, next);
    case StartTest(run, path, _) => FoundIs(db, run, path);
    case EndTest(run, path, _, _) => FoundIs(db, run, path);
    case ShotSpec(run, path, _, _) => FoundIs(db, run, path);
    case _ =>
  }

  lemma ThenReady(db: Tables, q: Query, next: seq<Query>, i: nat)
    requires Wf(db) && Holds(db, q) && next == Then(db, q) && i < |next|
    requires q.CountRows? ==> SpecAt(db.specs, q.run, q.path) == Some(q.s)
    ensures next[i].PutSummary? || next[i].CountRows? ==> i == 0 && After(db, q) == db && |next| == 1
    ensures next[i].PutSummary? ==> NoRows(db, next[i].run, next[i].path)
    ensures next[i].CountRows? ==> SpecAt(db.specs, next[i].run, next[i].path) == Some(next[i].s)
  {
    if q.Abort? { assert next[i] in next; }
  }

  /** An upload's statement gives no other spec its first row. */
  lemma UploadElsewhere(db: Tables, q: Query, run: nat, path: string)
    requires Wf(db) && Holds(db, q) && UploadStep(q) && NoRows(db, run, path)
    requires !UploadFor(db, q, run, path)
    ensures NoRows(After(db, q), run, path)
  {
    var r, s := After(db, q), SpecAt(db.specs, run, path);
    if |r.specs| == |db.specs| {
      forall i | 0 <= i < |db.specs| ensures r.specs[i].run == db.specs[i].run && r.specs[i].path == db.specs[i].path {
        SpecKeeps(db, q, i);
      }
      SpecAtSame(db.specs, r.specs, run, path);
      if s.Some? && HasTests(r.tests, s.value) { RowsElsewhere(db, q, run, path, s.value); }
    } else {
      GrownSpecs(db, q, r);
      SpecAtNew(db.specs, Spec(q.run, q.path, ZERO), run, path);
      if s.Some? { assert r.tests == db.tests; }
    }
  }

  lemma RowsElsewhere(db: Tables, q: Query, run: nat, path: string, s: nat)
    requires Wf(db) && Holds(db, q) && UploadStep(q) && SpecAt(db.specs, run, path) == Some(s)
    requires !UploadFor(db, q, run, path) && HasTests(After(db, q).tests, s)
    ensures HasTests(db.tests, s)
  {
    var i :| 0 <= i < |After(db, q).tests| && After(db, q).tests[i].spec == s;
    if i < |db.tests| { assert db.tests[i].spec == s; }
  }

  lemma RowsRemain(db: Tables, q: Query, run: nat, path: string)
    requires Wf(db) && Holds(db, q) && !NoRows(db, run, path)
    ensures !NoRows(After(db, q), run, path)
  {
    SpecStays(db, q, run, path, SpecAt(db.specs, run, path).value);
    RowsStay(db, q, SpecAt(db.specs, run, path).value);
  }

  lemma UploadThen(db: Tables, q: Query, next: Query)
    requires Wf(db) && Holds(db, q) && UploadStep(q) && next in Then(db, q)
    ensures UploadStep(next)
  {
  }

  /** The statements of other queues, and those behind the one that ran, stay in place. */
  lemma WaitingPlaced(m: Live, owner: nat -> nat, a: nat, b: nat, j: nat, r: Tables, queue: seq<Query>, i: nat)
    requires Sound(m) && Queued(m, owner) && Todo(m, a) != [] && b in m.todo && j < |m.todo[b]|
    requires r == After(m.db, m.todo[a][0]) && i < |queue| && queue[i] == m.todo[b][j]
    requires b == a ==> j > 0
    requires b != a ==> i == j
    ensures Placed(r, owner, b, queue, i)
  {
    var q, head := m.todo[b][j], m.todo[a][0];
    assert q in m.todo[b] && head in m.todo[a];
    assert Placed(m.db, owner, b, m.todo[b], j) && Placed(m.db, owner, a, m.todo[a], 0);
    RunKept(m.db, head, q);
    if q.CountRows? { SpecStays(m.db, head, q.run, q.path, q.s); }
    if q.PutSummary? { SummaryStaysReady(m, owner, a, b, q); }
  }

  /** A summary about to be written still finds no rows. */
  lemma SummaryStaysReady(m: Live, owner: nat -> nat, a: nat, b: nat, q: Query)
    requires Sound(m) && Queued(m, owner) && Todo(m, a) != [] && b in m.todo && b != a && q in m.todo[b] && q.PutSummary?
    requires owner(q.run) == b && NoRows(m.db, q.run, q.path)
    ensures NoRows(After(m.db, m.todo[a][0]), q.run, q.path)
  {
    var head := m.todo[a][0];
    assert head in m.todo[a] && Placed(m.db, owner, a, m.todo[a], 0);
    if UploadStep(head) {
      assert !Collides(m.db, owner, a, head, q);
      UploadElsewhere(m.db, head, q.run, q.path);
    } else {
      OtherRun(m.db, head, q.run, q.path);
    }
  }

  lemma RunKept(db: Tables, head: Query, q: Query)
    requires Wf(db) && Holds(db, head) && Holds(db, q)
    ensures Holds(After(db, head), q) && RunOf(After(db, head), q) == RunOf(db, q)
  {
    if q.PutPending? || q.UpdateRow? || q.PutRow? || q.PutShot? || q.Recompute? { SpecKeeps(db, head, q.s); }
  }

  /** What the statement that ran puts in its place. */
  lemma NextPlaced(m: Live, owner: nat -> nat, a: nat, r: Tables, next: seq<Query>, queue: seq<Query>, i: nat)
    requires Sound(m) && Queued(m, owner) && Todo(m, a) != []
    requires r == After(m.db, m.todo[a][0]) && next == Then(m.db, m.todo[a][0])
    requires i < |next| && i < |queue| && queue[i] == next[i]
    ensures Placed(r, owner, a, queue, i)
  {
    var head := m.todo[a][0];
    assert head in m.todo[a] && next[i] in next;
    assert Placed(m.db, owner, a, m.todo[a], 0);
    ThenHolds(m.db, head, next[i]);
    if UploadStep(head) {
      UploadThen(m.db, head, next[i]);
    } else {
      ThenReady(m.db, head, next, i);
      ThenSameRun(m.db, head, next[i]);
    }
  }

  /** Where a statement of a queue stood before the step. */
  lemma Before(m: Live, a: nat, n: Live, b: nat, i: nat, next: seq<Query>) returns (j: nat)
    requires Sound(m) && Todo(m, a) != [] && n == Next(m, Go(a)) && next == Then(m.db, m.todo[a][0])
    requires b in n.todo && i < |n.todo[b]| && (b == a ==> i >= |next|)
    ensures b in m.todo && j < |m.todo[b]| && n.todo[b][i] == m.todo[b][j]
    ensures (b == a ==> j > 0) && (b != a ==> i == j)
  {
    assert m.todo[a][0] in m.todo[a];
    j := if b == a then i - |next| + 1 else i;
  }

  /** What an upload's statement leads to is for the same spec, and so is what spec.finished leads to. */
  lemma SameSpecBefore(db: Tables, head: Query, next: Query, run: nat, path: string)
    requires Wf(db) && Holds(db, head) && next in Then(db, head)
    ensures UploadFor(After(db, head), next, run, path) ==> UploadFor(db, head, run, path)
    ensures SummaryStep(next) ==> SummaryStep(head) && next.run == head.run && next.path == head.path
  {
    if head.Abort? { assert next.Recompute?; }
    if head.ShotSpec? && head.run in db.runs { FoundIs(db, head.run, head.path); }
  }

  /** An upload that waits is for the spec it was for. */
  lemma SameUpload(db: Tables, head: Query, q: Query, run: nat, path: string)
    requires Wf(db) && Holds(db, head) && Holds(db, q)
    ensures UploadFor(After(db, head), q, run, path) ==> UploadFor(db, q, run, path)
  {
    if q.PutShot? { SpecKeeps(db, head, q.s); }
  }

  /** Where a statement of the new state comes from: itself, or the statement that ran. */
  lemma Source(m: Live, a: nat, n: Live, b: nat, q: Query) returns (was: Query)
    requires Sound(m) && Todo(m, a) != [] && n == Next(m, Go(a)) && b in n.todo && q in n.todo[b]
    ensures b in m.todo && was in m.todo[b]
    ensures was == q || (b == a && was == m.todo[a][0] && q in Then(m.db, was))
  {
    var head, next := m.todo[a][0], Then(m.db, m.todo[a][0]);
    assert head in m.todo[a];
    var i :| 0 <= i < |n.todo[b]| && n.todo[b][i] == q;
    if b == a && i < |next| {
      was := head;
    } else {
      var j := Before(m, a, n, b, i, next);
      was := q;
    }
  }

  lemma GoKeepsApart(m: Live, owner: nat -> nat, a: nat, n: Live)
    requires Sound(m) && Apart(m, owner) && Todo(m, a) != [] && n == Next(m, Go(a))
    ensures Apart(n, owner)
  {
    var head := m.todo[a][0];
    assert head in m.todo[a];
    forall b, c, upload, q | b in n.todo && upload in n.todo[b] && c in n.todo && q in n.todo[c]
      ensures !Collides(n.db, owner, b, upload, q)
    {
      if Collides(n.db, owner, b, upload, q) { CameFrom(m, owner, a, n, b, c, upload, q); }
    }
  }

  lemma CameFrom(m: Live, owner: nat -> nat, a: nat, n: Live, b: nat, c: nat, upload: Query, q: Query)
    requires Sound(m) && Todo(m, a) != [] && n == Next(m, Go(a))
    requires b in n.todo && upload in n.todo[b] && c in n.todo && q in n.todo[c] && Collides(n.db, owner, b, upload, q)
    ensures !Apart(m, owner)
  {
    var head := m.todo[a][0];
    assert head in m.todo[a];
    var u := Source(m, a, n, b, upload);
    var p := Source(m, a, n, c, q);
    if !NoRows(m.db, q.run, q.path) { RowsRemain(m.db, head, q.run, q.path); }
    if u == upload { SameUpload(m.db, head, u, q.run, q.path); } else { SameSpecBefore(m.db, head, upload, q.run, q.path); }
    if p != q { SameSpecBefore(m.db, head, q, q.run, q.path); }
    assert Collides(m.db, owner, b, u, p);
  }

  lemma GoKeepsQueued(m: Live, owner: nat -> nat, a: nat, n: Live)
    requires Sound(m) && Queued(m, owner) && Todo(m, a) != [] && n == Next(m, Go(a))
    ensures Queued(n, owner)
  {
    assert m.todo[a][0] in m.todo[a];
    var next := Then(m.db, m.todo[a][0]);
    GoKeepsApart(m, owner, a, n);
    forall b, i: nat | b in n.todo && i < |n.todo[b]| ensures Placed(n.db, owner, b, n.todo[b], i) {
      if b == a && i < |next| {
        NextPlaced(m, owner, a, n.db, next, n.todo[b], i);
      } else {
        var j := Before(m, a, n, b, i, next);
        WaitingPlaced(m, owner, a, b, j, n.db, n.todo[b], i);
      }
    }
  }

  /** What arrives joins its run's queue, or is an upload. Of a spec without rows no upload arrives while a spec.finished
      is queued or under way, and no spec.finished while an upload is. */
  predicate Joins(m: Live, owner: nat -> nat, a: nat, q: Query) {
    && Arrives(q) && (q.Shot? || owner(q.run) == a)
    && (forall b, p :: b in m.todo && p in m.todo[b] ==> !Collides(m.db, owner, a, q, p) && !Collides(m.db, owner, b, p, q))
  }

  /** In particular an upload for a spec that has rows may arrive at any time. */
  lemma UploadOverRowsJoins(m: Live, owner: nat -> nat, a: nat, q: Query)
    requires q.Shot? && HasRows(m.db, q.run, q.path)
    ensures Joins(m, owner, a, q)
  {
    forall b, p | b in m.todo && p in m.todo[b]
      ensures !Collides(m.db, owner, a, q, p) && !Collides(m.db, owner, b, p, q)
    {
    }
  }

  lemma ArriveKeepsQueued(m: Live, owner: nat -> nat, a: nat, q: Query, n: Live)
    requires Sound(m) && Queued(m, owner) && Joins(m, owner, a, q) && n == Next(m, Arrive(a, q))
    ensures Queued(n, owner)
  {
    forall b, i | b in n.todo && 0 <= i < |n.todo[b]| ensures Placed(n.db, owner, b, n.todo[b], i) {
      if b in m.todo && i < |m.todo[b]| {
        assert n.todo[b][i] == m.todo[b][i];
        assert Placed(m.db, owner, b, m.todo[b], i);
      }
    }
    forall b, c, upload, p | b in n.todo && upload in n.todo[b] && c in n.todo && p in n.todo[c]
      ensures !Collides(n.db, owner, b, upload, p)
    {
      assert (upload == q && b == a) || (b in m.todo && upload in m.todo[b]);
      assert (p == q && c == a) || (c in m.todo && p in m.todo[c]);
    }
  }

  /** Whatever arrives during the run joins where it may. */
  predicate Fed(m: Live, owner: nat -> nat, steps: seq<Step>)
    requires Sound(m)
    decreases |steps|
  {
    steps == [] ||
    ((steps[0].Arrive? && Arrives(steps[0].q) ==> Joins(m, owner, steps[0].actor, steps[0].q))
     && Fed(Next(m, steps[0]), owner, steps[1..]))
  }

  lemma NextKeepsQueued(m: Live, owner: nat -> nat, step: Step, n: Live)
    requires Sound(m) && Queued(m, owner) && n == Next(m, step)
    requires step.Arrive? && Arrives(step.q) ==> Joins(m, owner, step.actor, step.q)
    ensures Queued(n, owner)
    ensures step.Go? && Enabled(m, step) ==> !Harmful(m.db, m.todo[step.actor][0])
  {
    if Enabled(m, step) {
      match step {
        case Arrive(a, q) => ArriveKeepsQueued(m, owner, a, q, n);
        case Go(a) =>
          assert Placed(m.db, owner, a, m.todo[a], 0);
          GoKeepsQueued(m, owner, a, n);
      }
    }
  }

  /** Any number of runs, each with its own queue of events and aborts, beside any number of uploads, interleaved in any
      way: as long as no spec without rows has an upload and a spec.finished under way together, no summary overwrites
      the counters of rows. */
  lemma {:induction false} QueuesAreCalm(m: Live, owner: nat -> nat, steps: seq<Step>)
    requires Sound(m) && Queued(m, owner) && Fed(m, owner, steps)
    ensures Calm(m, steps)
    decreases |steps|
  {
    if steps != [] {
      NextKeepsQueued(m, owner, steps[0], Next(m, steps[0]));
      QueuesAreCalm(Next(m, steps[0]), owner, steps[1..]);
    }
  }

  /** So their aggregates come out exact. */
  lemma QueuedRunsExact(m: Live, owner: nat -> nat, steps: seq<Step>)
    requires Sound(m) && Queued(m, owner) && Exact(m.db) && Fed(m, owner, steps) && Quiet(Run(m, steps))
    ensures Exact(Run(m, steps).db)
  {
    QueuesAreCalm(m, owner, steps);
    AggregatesExact(m, steps);
  }

  /** And when the summaries sent add up, so do every run's counters. */
  lemma QueuedTotalsAddUp(m: Live, owner: nat -> nat, steps: seq<Step>, run: nat)
    requires Sound(m) && Queued(m, owner) && Exact(m.db) && Fed(m, owner, steps) && Quiet(Run(m, steps))
    requires Balanced(m.db) && PayloadsAdd(m) && ArrivalsAdd(steps) && run in Run(m, steps).db.runs
    ensures var counts := Run(m, steps).db.runs[run]; Adds(counts) && NonNegative(counts)
  {
    QueuesAreCalm(m, owner, steps);
    TotalsAddUp(m, steps, run);
  }
}
