// Events are delivered at least once: processing a batch again changes nothing, and each test
// keeps one row with the outcome it last ended with.
module LiveReplay {
  import opened Text
  import opened LiveTables
  import opened LiveRaces
  import opened LiveEvents

  /** The events a batch may hold: specs and tests starting, tests ending. */
  predicate Replayable(q: Query) { q.StartSpec? || q.StartTest? || q.EndTest? }

  predicate AllReplayable(batch: seq<Query>) {
    forall q :: q in batch ==> Replayable(q)
  }

  function Process(db: Tables, batch: seq<Query>): (r: Tables)
    requires Wf(db)
    ensures Wf(r)
  {
    if batch == [] then db else Handle(Process(db, batch[..|batch| - 1]), batch[|batch| - 1])
  }

  /** How the batch says a test ended, if it does: its last word on it. */
  function LastOutcome(batch: seq<Query>, run: nat, path: string, title: string): Option<Outcome> {
    if batch == [] then None
    else
      var q := batch[|batch| - 1];
      if q.EndTest? && q.run == run && q.path == path && q.title == title then Some(q.o)
      else LastOutcome(batch[..|batch| - 1], run, path, title)
  }

  /** Some test of the spec ends in the batch. */
  predicate EndsIn(batch: seq<Query>, run: nat, path: string) {
    batch != [] &&
    var q := batch[|batch| - 1];
    (q.EndTest? && q.run == run && q.path == path) || EndsIn(batch[..|batch| - 1], run, path)
  }

  predicate EndsRun(batch: seq<Query>, run: nat) {
    batch != [] &&
    var q := batch[|batch| - 1];
    (q.EndTest? && q.run == run) || EndsRun(batch[..|batch| - 1], run)
  }

  function Last(batch: seq<Query>, db: Tables, test: Test): Option<Outcome>
    requires test.spec < |db.specs|
  {
    LastOutcome(batch, db.specs[test.spec].run, db.specs[test.spec].path, test.title)
  }

  // ---------------------------------------------------------------- what a batch establishes

  /** Rows hold the last outcome the batch gave their test. */
  predicate RowsTold(db: Tables, batch: seq<Query>)
    requires Wf(db)
  {
    forall i :: 0 <= i < |db.tests| ==>
      Last(batch, db, db.tests[i]).Some? ==> db.tests[i].outcome == Last(batch, db, db.tests[i]).value
  }

  predicate SpecTold(db: Tables, batch: seq<Query>, s: nat)
    requires s < |db.specs|
  {
    EndsIn(batch, db.specs[s].run, db.specs[s].path) ==> db.specs[s].counts == CountTests(db.tests, s)
  }

  /** Specs in which a test ended are counted, and their runs are summed. */
  predicate SpecsTold(db: Tables, batch: seq<Query>) {
    forall s :: 0 <= s < |db.specs| ==> SpecTold(db, batch, s)
  }

  predicate RunsTold(db: Tables, batch: seq<Query>) {
    forall run :: run in db.runs ==> EndsRun(batch, run) ==> RunExact(db, run)
  }

  predicate Told(db: Tables, batch: seq<Query>) {
    Wf(db) && RowsTold(db, batch) && SpecsTold(db, batch) && RunsTold(db, batch)
  }

  lemma Drop(batch: seq<Query>, q: Query, next: seq<Query>)
    requires next == batch + [q]
    ensures next[..|next| - 1] == batch && next[|next| - 1] == q
  {
  }

  // ---------------------------------------------------------------- one event keeps it

  lemma WithSpecSpecsTold(db: Tables, batch: seq<Query>, run: nat, path: string, d: Tables)
    requires Told(db, batch) && run in db.runs && d == WithSpec(db, run, path)
    ensures SpecsTold(d, batch)
  {
    forall s | 0 <= s < |d.specs| ensures SpecTold(d, batch, s) {
      if s < |db.specs| {
        assert SpecTold(db, batch, s);
      } else {
        NewSpecTold(db, d, batch, s);
      }
    }
  }

  lemma NewSpecTold(db: Tables, d: Tables, batch: seq<Query>, s: nat)
    requires Wf(db) && |db.specs| <= s < |d.specs| && d.tests == db.tests && d.specs[s].counts == ZERO
    ensures SpecTold(d, batch, s)
  {
    assert !HasTests(db.tests, s);
    CountNone(db.tests, s);
  }

  lemma WithSpecRunsTold(db: Tables, batch: seq<Query>, run: nat, path: string, d: Tables)
    requires Told(db, batch) && run in db.runs && d == WithSpec(db, run, path)
    ensures RunsTold(d, batch)
  {
    forall r | r in d.runs && EndsRun(batch, r) ensures RunExact(d, r) {
      assert RunExact(db, r);
      SumWithSpec(db, run, path, r);
    }
  }

  /** A spec found or created: what was told stays told. */
  lemma WithSpecTold(db: Tables, batch: seq<Query>, run: nat, path: string)
    requires Told(db, batch) && run in db.runs
    ensures Told(WithSpec(db, run, path), batch)
  {
    var d := WithSpec(db, run, path);
    WithSpecSpecsTold(db, batch, run, path, d);
    WithSpecRunsTold(db, batch, run, path, d);
    assert forall i :: 0 <= i < |db.tests| ==> d.specs[db.tests[i].spec] == db.specs[db.tests[i].spec];
  }

  /** Rows of spec s rewritten and the spec refreshed: every other spec and run is as it was. */
  lemma RefreshTold(db: Tables, tests: seq<Test>, s: nat, batch: seq<Query>, next: seq<Query>, r: Tables)
    requires Told(db, batch) && s < |db.specs| && |db.tests| <= |tests|
    requires forall i :: 0 <= i < |tests| ==> tests[i].spec < |db.specs|
    requires r == Refreshed(WithTests(db, tests), s)
    requires forall t :: 0 <= t < |db.specs| && t != s ==> CountTests(tests, t) == CountTests(db.tests, t)
    requires forall t :: 0 <= t < |db.specs| && t != s && EndsIn(next, db.specs[t].run, db.specs[t].path)
               ==> EndsIn(batch, db.specs[t].run, db.specs[t].path)
    requires forall run :: run != db.specs[s].run && EndsRun(next, run) ==> EndsRun(batch, run)
    ensures SpecsTold(r, next) && RunsTold(r, next) && r.tests == tests
    ensures forall t :: 0 <= t < |db.specs| ==> r.specs[t].run == db.specs[t].run && r.specs[t].path == db.specs[t].path
  {
    forall t | 0 <= t < |r.specs| ensures SpecTold(r, next, t) {
      if t != s { assert SpecTold(db, batch, t); }
    }
    forall run | run in r.runs && EndsRun(next, run) ensures RunExact(r, run) {
      if run != db.specs[s].run {
        assert RunExact(db, run);
        SumOther(db.specs, s, CountTests(tests, s), run);
      }
    }
  }

  lemma OtherCounts(db: Tables, tests: seq<Test>, s: nat, row: Test)
    requires tests == db.tests + [row] && row.spec == s
    ensures forall t :: 0 <= t < |db.specs| && t != s ==> CountTests(tests, t) == CountTests(db.tests, t)
  {
    forall t | 0 <= t < |db.specs| && t != s ensures CountTests(tests, t) == CountTests(db.tests, t) {
      CountAppend(db.tests, row, t);
      AddZero(CountTests(db.tests, t));
    }
  }

  lemma RewrittenCounts(db: Tables, s: nat, title: string, o: Outcome)
    ensures forall t :: 0 <= t < |db.specs| && t != s ==>
      CountTests(WithOutcome(db.tests, s, title, o), t) == CountTests(db.tests, t)
  {
    forall t | 0 <= t < |db.specs| && t != s
      ensures CountTests(WithOutcome(db.tests, s, title, o), t) == CountTests(db.tests, t)
    {
      CountSame(WithOutcome(db.tests, s, title, o), db.tests, t);
    }
  }

  /** An event that ends no test tells nothing new about any test. */
  lemma NothingNew(batch: seq<Query>, q: Query, next: seq<Query>)
    requires next == batch + [q] && !q.EndTest?
    ensures forall run, path, title :: LastOutcome(next, run, path, title) == LastOutcome(batch, run, path, title)
    ensures forall run, path :: EndsIn(next, run, path) == EndsIn(batch, run, path)
    ensures forall run :: EndsRun(next, run) == EndsRun(batch, run)
  {
    Drop(batch, q, next);
  }

  lemma ToldSame(db: Tables, batch: seq<Query>, next: seq<Query>)
    requires Told(db, batch)
    requires forall run, path, title :: LastOutcome(next, run, path, title) == LastOutcome(batch, run, path, title)
    requires forall run, path :: EndsIn(next, run, path) == EndsIn(batch, run, path)
    requires forall run :: EndsRun(next, run) == EndsRun(batch, run)
    ensures Told(db, next)
  {
    forall s | 0 <= s < |db.specs| ensures SpecTold(db, next, s) { assert SpecTold(db, batch, s); }
  }

  lemma StartTold(db: Tables, batch: seq<Query>, q: Query, next: seq<Query>, r: Tables)
    requires Told(db, batch) && q.StartTest? && next == batch + [q] && r == Handle(db, q)
    requires FirstRowUntold(db, batch, q)
    ensures Told(r, next)
  {
    NothingNew(batch, q, next);
    if q.run in db.runs {
      var d := WithSpec(db, q.run, q.path);
      var s := Found(d, q.run, q.path);
      WithSpecTold(db, batch, q.run, q.path);
      ToldSame(d, batch, next);
      if !HasRow(d.tests, s, q.title) {
        var row := Test(s, q.title, PENDING, []);
        OtherCounts(d, d.tests + [row], s, row);
        RefreshTold(d, d.tests + [row], s, next, next, r);
        StartRows(d, next, row, r);
      }
    } else {
      ToldSame(db, batch, next);
    }
  }

  /** A test that ended already has its row, so a row inserted as pending is told nothing. */
  predicate FirstRowUntold(db: Tables, batch: seq<Query>, q: Query)
    requires Wf(db) && q.StartTest?
  {
    LastOutcome(batch, q.run, q.path, q.title).Some? && q.run in db.runs ==>
      var s := SpecAt(db.specs, q.run, q.path);
      s.Some? && HasRow(db.tests, s.value, q.title)
  }

  lemma StartRows(d: Tables, batch: seq<Query>, row: Test, r: Tables)
    requires Wf(d) && Wf(r) && RowsTold(d, batch) && row.spec < |d.specs| && Last(batch, d, row).None?
    requires r.tests == d.tests + [row] && |r.specs| == |d.specs|
    requires forall t :: 0 <= t < |d.specs| ==> r.specs[t].run == d.specs[t].run && r.specs[t].path == d.specs[t].path
    ensures RowsTold(r, batch)
  {
    forall i | 0 <= i < |r.tests| && Last(batch, r, r.tests[i]).Some?
      ensures r.tests[i].outcome == Last(batch, r, r.tests[i]).value
    {
      assert r.tests[i] == if i < |d.tests| then d.tests[i] else row;
    }
  }

  // ---------------------------------------------------------------- a test ends

  lemma EndNew(batch: seq<Query>, q: Query, next: seq<Query>)
    requires next == batch + [q] && q.EndTest?
    ensures forall run, path, title :: LastOutcome(next, run, path, title) ==
              if q.run == run && q.path == path && q.title == title then Some(q.o) else LastOutcome(batch, run, path, title)
    ensures forall run, path :: EndsIn(next, run, path) <==> (q.run == run && q.path == path) || EndsIn(batch, run, path)
    ensures forall run :: EndsRun(next, run) <==> q.run == run || EndsRun(batch, run)
  {
    Drop(batch, q, next);
  }

  lemma EndRows(d: Tables, batch: seq<Query>, q: Query, next: seq<Query>, s: nat, r: Tables)
    requires Wf(d) && Wf(r) && RowsTold(d, batch) && q.EndTest? && next == batch + [q]
    requires SpecAt(d.specs, q.run, q.path) == Some(s)
    requires r.tests == Ended(d.tests, s, q.title, q.o) && |r.specs| == |d.specs|
    requires forall t :: 0 <= t < |d.specs| ==> r.specs[t].run == d.specs[t].run && r.specs[t].path == d.specs[t].path
    ensures RowsTold(r, next)
  {
    EndNew(batch, q, next);
    forall i | 0 <= i < |r.tests| && Last(next, r, r.tests[i]).Some?
      ensures r.tests[i].outcome == Last(next, r, r.tests[i]).value
    {
      var test := r.tests[i];
      if !(q.run == r.specs[test.spec].run && q.path == r.specs[test.spec].path && q.title == test.title) {
        assert !Keyed(test, s, q.title);
        assert i < |d.tests| && d.tests[i] == test;
      } else {
        assert test.spec == s by { SameSpec(d, test.spec, s); }
      }
    }
  }

  lemma SameSpec(db: Tables, s: nat, t: nat)
    requires Wf(db) && s < |db.specs| && t < |db.specs|
    requires db.specs[s].run == db.specs[t].run && db.specs[s].path == db.specs[t].path
    ensures s == t
  {
  }

  lemma EndTold(db: Tables, batch: seq<Query>, q: Query, next: seq<Query>, r: Tables)
    requires Told(db, batch) && q.EndTest? && next == batch + [q] && r == Handle(db, q)
    ensures Told(r, next)
  {
    EndNew(batch, q, next);
    if q.run in db.runs {
      var d := WithSpec(db, q.run, q.path);
      var s := Found(d, q.run, q.path);
      WithSpecTold(db, batch, q.run, q.path);
      var tests := Ended(d.tests, s, q.title, q.o);
      if HasRow(d.tests, s, q.title) { RewrittenCounts(d, s, q.title, q.o); }
      else { OtherCounts(d, tests, s, Test(s, q.title, q.o, [])); }
      RefreshTold(d, tests, s, batch, next, r);
      EndRows(d, batch, q, next, s, r);
    } else {
      GoneTold(db, batch, q, next);
    }
  }

  /** An event of a run that is gone is about no row, no spec and no run. */
  lemma GoneTold(db: Tables, batch: seq<Query>, q: Query, next: seq<Query>)
    requires Told(db, batch) && q.EndTest? && next == batch + [q] && q.run !in db.runs
    ensures Told(db, next)
  {
    EndNew(batch, q, next);
    forall s | 0 <= s < |db.specs| ensures SpecTold(db, next, s) { assert SpecTold(db, batch, s); }
    forall i | 0 <= i < |db.tests| ensures Last(next, db, db.tests[i]) == Last(batch, db, db.tests[i]) {
      assert db.specs[db.tests[i].spec].run in db.runs;
    }
  }

  // ---------------------------------------------------------------- what is there stays there

  predicate Present(db: Tables, q: Query) {
    Replayable(q) && q.run in db.runs ==>
      var s := SpecAt(db.specs, q.run, q.path);
      s.Some? && (!q.StartSpec? ==> HasRow(db.tests, s.value, q.title))
  }

  /** Every spec and test the batch mentions exists. */
  predicate Saturated(db: Tables, batch: seq<Query>) {
    forall q :: q in batch ==> Present(db, q)
  }

  lemma SpecKept(db: Tables, q: Query, run: nat, path: string, s: nat)
    requires Wf(db) && Replayable(q) && SpecAt(db.specs, run, path) == Some(s)
    ensures SpecAt(Handle(db, q).specs, run, path) == Some(s)
  {
    var r := Handle(db, q);
    assert r.specs[s].run == run && r.specs[s].path == path;
    SpecAtIs(r.specs, s);
  }

  lemma RowKept(db: Tables, q: Query, s: nat, title: string)
    requires Wf(db) && Replayable(q) && HasRow(db.tests, s, title)
    ensures HasRow(Handle(db, q).tests, s, title)
  {
    var i :| 0 <= i < |db.tests| && Keyed(db.tests[i], s, title);
    assert Keyed(Handle(db, q).tests[i], s, title);
  }

  lemma PresentKept(db: Tables, q: Query, p: Query)
    requires Wf(db) && Replayable(q) && Present(db, p)
    ensures Present(Handle(db, q), p)
  {
    assert Handle(db, q).runs.Keys == db.runs.Keys;
    if Replayable(p) && p.run in db.runs {
      var s := SpecAt(db.specs, p.run, p.path).value;
      SpecKept(db, q, p.run, p.path, s);
      if !p.StartSpec? { RowKept(db, q, s, p.title); }
    }
  }

  lemma NowPresent(db: Tables, q: Query)
    requires Wf(db) && Replayable(q)
    ensures Present(Handle(db, q), q)
  {
    var r := Handle(db, q);
    assert r.runs.Keys == db.runs.Keys;
    if q.run in db.runs {
      var d := WithSpec(db, q.run, q.path);
      var s := Found(d, q.run, q.path);
      assert r.specs[s].run == q.run && r.specs[s].path == q.path;
      SpecAtIs(r.specs, s);
      if !q.StartSpec? { RowThere(d, q, s, r.tests); }
    }
  }

  lemma RowThere(d: Tables, q: Query, s: nat, tests: seq<Test>)
    requires q.StartTest? || q.EndTest?
    requires tests == if HasRow(d.tests, s, q.title) then
                        (if q.StartTest? then d.tests else WithOutcome(d.tests, s, q.title, q.o))
                      else d.tests + [Test(s, q.title, if q.StartTest? then PENDING else q.o, [])]
    ensures HasRow(tests, s, q.title)
  {
    if HasRow(d.tests, s, q.title) {
      var i :| 0 <= i < |d.tests| && Keyed(d.tests[i], s, q.title);
      assert Keyed(tests[i], s, q.title);
    } else {
      assert Keyed(tests[|d.tests|], s, q.title);
    }
  }

  lemma SaturateNext(d: Tables, front: seq<Query>, q: Query, r: Tables)
    requires Wf(d) && Replayable(q) && Saturated(d, front) && r == Handle(d, q)
    ensures Saturated(r, front + [q])
  {
    forall p | p in front + [q] ensures Present(r, p) {
      if p in front { PresentKept(d, q, p); } else { NowPresent(d, q); }
    }
  }

  lemma {:induction false} Saturates(db: Tables, batch: seq<Query>)
    requires Wf(db) && AllReplayable(batch)
    ensures Saturated(Process(db, batch), batch)
  {
    if batch != [] {
      var front, q := batch[..|batch| - 1], batch[|batch| - 1];
      assert q in batch && batch == front + [q];
      Saturates(db, front);
      SaturateNext(Process(db, front), front, q, Process(db, batch));
    }
  }

  lemma {:induction false} LastIsThere(batch: seq<Query>, run: nat, path: string, title: string)
    requires LastOutcome(batch, run, path, title).Some?
    ensures EndTest(run, path, title, LastOutcome(batch, run, path, title).value) in batch
  {
    var front, q := batch[..|batch| - 1], batch[|batch| - 1];
    assert q in batch;
    if !(q.EndTest? && q.run == run && q.path == path && q.title == title) { LastIsThere(front, run, path, title); }
  }

  /** After a batch: rows hold their test's last outcome in it, and the aggregates it touched are exact. */
  lemma {:induction false} BatchTold(db: Tables, batch: seq<Query>)
    requires Wf(db) && AllReplayable(batch)
    ensures Told(Process(db, batch), batch)
  {
    if batch != [] {
      var front, q := batch[..|batch| - 1], batch[|batch| - 1];
      assert q in batch;
      BatchTold(db, front);
      assert batch == front + [q];
      var d := Process(db, front);
      match q {
        case StartSpec(run, path) =>
          NothingNew(front, q, batch);
          if run in d.runs { WithSpecTold(d, front, run, path); }
          ToldSame(Handle(d, q), front, batch);
        case StartTest(run, path, title) =>
          UntoldBefore(db, front, q);
          StartTold(d, front, q, batch, Handle(d, q));
        case EndTest(_, _, _, _) =>
          EndTold(d, front, q, batch, Handle(d, q));
      }
    }
  }

  lemma UntoldBefore(db: Tables, batch: seq<Query>, q: Query)
    requires Wf(db) && AllReplayable(batch) && q.StartTest?
    ensures FirstRowUntold(Process(db, batch), batch, q)
  {
    var last := LastOutcome(batch, q.run, q.path, q.title);
    if last.Some? {
      Saturates(db, batch);
      LastIsThere(batch, q.run, q.path, q.title);
      assert Present(Process(db, batch), EndTest(q.run, q.path, q.title, last.value));
    }
  }

  // ---------------------------------------------------------------- the second time

  /** Nothing changed but what a test's end in the batch may change. */
  predicate Frame(d: Tables, e: Tables, batch: seq<Query>)
    requires Wf(d) && Wf(e)
  {
    && |e.tests| == |d.tests| && |e.specs| == |d.specs| && e.runs.Keys == d.runs.Keys
    && (forall i :: 0 <= i < |d.tests| ==> SameRow(d, e, batch, i))
    && (forall s :: 0 <= s < |d.specs| ==> SameSpecRow(d, e, batch, s))
    && (forall run :: run in d.runs && !EndsRun(batch, run) ==> e.runs[run] == d.runs[run])
  }

  predicate SameRow(d: Tables, e: Tables, batch: seq<Query>, i: nat)
    requires Wf(d) && |e.tests| == |d.tests| && i < |d.tests|
  {
    && e.tests[i] == d.tests[i].(outcome := e.tests[i].outcome)
    && (Last(batch, d, d.tests[i]).None? ==> e.tests[i].outcome == d.tests[i].outcome)
  }

  predicate SameSpecRow(d: Tables, e: Tables, batch: seq<Query>, s: nat)
    requires |e.specs| == |d.specs| && s < |d.specs|
  {
    && e.specs[s] == d.specs[s].(counts := e.specs[s].counts)
    && (!EndsIn(batch, d.specs[s].run, d.specs[s].path) ==> e.specs[s].counts == d.specs[s].counts)
  }

  /** An event whose spec and test exist: only an ended test changes anything. */
  lemma PresentHandled(e: Tables, q: Query)
    requires Wf(e) && Replayable(q) && Present(e, q)
    ensures !q.EndTest? || q.run !in e.runs ==> Handle(e, q) == e
    ensures q.EndTest? && q.run in e.runs ==>
              var s := SpecAt(e.specs, q.run, q.path).value;
              Handle(e, q) == Refreshed(WithTests(e, WithOutcome(e.tests, s, q.title, q.o)), s)
  {
  }

  lemma FrameNext(d: Tables, e: Tables, front: seq<Query>, q: Query, batch: seq<Query>, r: Tables)
    requires Wf(d) && Wf(e) && Frame(d, e, front) && Replayable(q) && Present(e, q)
    requires batch == front + [q] && r == Handle(e, q)
    ensures Frame(d, r, batch)
  {
    PresentHandled(e, q);
    if q.EndTest? && q.run in e.runs {
      EndNew(front, q, batch);
      FrameEnded(d, e, front, q, batch, r);
    } else if q.EndTest? {
      EndNew(front, q, batch);
      forall i | 0 <= i < |d.tests| ensures SameRow(d, e, batch, i) {
        assert SameRow(d, e, front, i);
      }
      forall s | 0 <= s < |d.specs| ensures SameSpecRow(d, e, batch, s) { assert SameSpecRow(d, e, front, s); }
    } else {
      NothingNew(front, q, batch);
      forall i | 0 <= i < |d.tests| ensures SameRow(d, e, batch, i) { assert SameRow(d, e, front, i); }
      forall s | 0 <= s < |d.specs| ensures SameSpecRow(d, e, batch, s) { assert SameSpecRow(d, e, front, s); }
    }
  }

  lemma FrameEnded(d: Tables, e: Tables, front: seq<Query>, q: Query, batch: seq<Query>, r: Tables)
    requires Wf(d) && Wf(e) && Wf(r) && Frame(d, e, front) && q.EndTest? && q.run in e.runs && Present(e, q)
    requires batch == front + [q]
    requires var s := SpecAt(e.specs, q.run, q.path).value;
             r == Refreshed(WithTests(e, WithOutcome(e.tests, s, q.title, q.o)), s)
    ensures Frame(d, r, batch)
  {
    EndNew(front, q, batch);
    var s := SpecAt(e.specs, q.run, q.path).value;
    forall i | 0 <= i < |d.tests| ensures SameRow(d, r, batch, i) {
      assert SameRow(d, e, front, i);
      assert SameSpecRow(d, e, front, d.tests[i].spec);
    }
    forall t | 0 <= t < |d.specs| ensures SameSpecRow(d, r, batch, t) { assert SameSpecRow(d, e, front, t); }
  }

  lemma {:induction false} SecondTimeFrame(d: Tables, batch: seq<Query>, all: seq<Query>)
    requires Wf(d) && AllReplayable(all) && Saturated(d, all) && forall q :: q in batch ==> q in all
    ensures Frame(d, Process(d, batch), batch) && Saturated(Process(d, batch), all)
  {
    if batch != [] {
      var front, q := batch[..|batch| - 1], batch[|batch| - 1];
      assert q in batch && batch == front + [q];
      SecondTimeFrame(d, front, all);
      var e := Process(d, front);
      assert Present(e, q);
      FrameNext(d, e, front, q, batch, Handle(e, q));
      forall p | p in all ensures Present(Handle(e, q), p) { PresentKept(e, q, p); }
    }
  }

  lemma ToldTwice(d: Tables, e: Tables, batch: seq<Query>)
    requires Told(d, batch) && Told(e, batch) && Frame(d, e, batch)
    ensures e == d
  {
    forall i | 0 <= i < |d.tests| ensures e.tests[i] == d.tests[i] {
      assert SameRow(d, e, batch, i) && SameSpecRow(d, e, batch, d.tests[i].spec);
    }
    assert e.tests == d.tests;
    forall s | 0 <= s < |d.specs| ensures e.specs[s] == d.specs[s] {
      assert SameSpecRow(d, e, batch, s) && SpecTold(d, batch, s) && SpecTold(e, batch, s);
    }
    assert e.specs == d.specs;
    forall run | run in d.runs ensures e.runs[run] == d.runs[run] {
      if EndsRun(batch, run) { assert RunExact(d, run) && RunExact(e, run); }
    }
    assert e.runs == d.runs;
  }

  /** Processing a batch of events again, from whatever tables, leaves spec, test and run rows as after once. */
  lemma ReplayChangesNothing(db: Tables, batch: seq<Query>)
    requires Wf(db) && AllReplayable(batch)
    ensures var once := Process(db, batch); Process(once, batch) == once
  {
    var once := Process(db, batch);
    Saturates(db, batch);
    SecondTimeFrame(once, batch, batch);
    BatchTold(db, batch);
    BatchTold(once, batch);
    ToldTwice(once, Process(once, batch), batch);
  }
}
