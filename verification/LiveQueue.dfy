// The per-run promise chains and the aborts queued on them: work of a run goes one at a time, in
// arrival order, and a run is aborted at most once.
module LiveQueue {
  import opened Text

  /** What is queued: the events of a POST, or an abort. */
  datatype Work = Report | Abort

  /** Where a piece of work stands. An abort checks, transitions, persists and emits, in that order;
      `moved` says whether its transition went through. */
  datatype Phase = Waiting | Running(pc: nat, moved: bool) | Settled

  /** A promise of the chain, and the one it was chained on. */
  datatype Promise = Promise(run: nat, work: Work, prev: Option<nat>, phase: Phase, cleaned: bool)

  /** What an emission of run.aborted saw. */
  datatype Emission = Emission(pending: set<string>, moved: bool)

  /** A run's row: its pending tests, the run.aborted events recorded by abortRun and by reporters. */
  datatype RunRow = RunRow(finished: bool, pending: set<string>, recorded: nat, reported: nat, emitted: seq<Emission>)

  /** The process: every promise in order of creation, the tail of each chain, and the rows of the runs. */
  datatype Queues = Queues(promises: seq<Promise>, chain: map<nat, nat>, runs: map<nat, RunRow>)

  datatype Step =
    | Enqueue(run: nat, work: Work)
    | Start(id: nat)                              // the promise before it settled
    | Rows(id: nat, pending: set<string>)         // a report inserts and ends tests
    | ReportAborted(id: nat)                      // a report records its own run.aborted
    | Act(id: nat, ok: bool)                      // the next statement of an abort
    | Done(id: nat)                               // a report settles, having failed or not
    | Cleanup(id: nat)                            // the promise's finally
    | FinishRun(run: nat)                         // the final upload, on no chain
    | DeleteRun(run: nat)                         // the row goes, and the run is forgotten

  predicate Is(q: Queues, id: nat, work: Work) {
    id < |q.promises| && q.promises[id].phase.Running? && q.promises[id].work == work
  }

  function SetPhase(q: Queues, id: nat, phase: Phase): (r: Queues)
    requires id < |q.promises|
  {
    q.(promises := q.promises[id := q.promises[id].(phase := phase)])
  }

  function SetRun(q: Queues, run: nat, row: RunRow): Queues { q.(runs := q.runs[run := row]) }

  /** The promise this one waits for has settled. */
  predicate Free(q: Queues, id: nat)
    requires id < |q.promises|
  {
    var prev := q.promises[id].prev;
    prev.None? || (prev.value < |q.promises| && q.promises[prev.value].phase.Settled?)
  }

  function EnqueueOnRun(q: Queues, run: nat, work: Work): Queues {
    var prev := if run in q.chain then Some(q.chain[run]) else None;
    q.(promises := q.promises + [Promise(run, work, prev, Waiting, false)], chain := q.chain[run := |q.promises|])
  }

  function CleanupChain(q: Queues, id: nat): Queues
    requires id < |q.promises|
  {
    var p := q.promises[id];
    q.(promises := q.promises[id := p.(cleaned := true)],
       chain := if p.run in q.chain && q.chain[p.run] == id then q.chain - {p.run} else q.chain)
  }

  /** The next statement of a running abort. */
  function AbortStep(q: Queues, id: nat, ok: bool): Queues
    requires Is(q, id, Abort)
  {
    var p := q.promises[id];
    if p.phase.pc == 0 then
      if !ok || p.run !in q.runs || q.runs[p.run].finished || q.runs[p.run].recorded + q.runs[p.run].reported > 0
      then SetPhase(q, id, Settled) else SetPhase(q, id, Running(1, false))
    else if p.phase.pc == 1 then
      var moved := SetPhase(q, id, Running(2, ok));
      if ok && p.run in q.runs then SetRun(moved, p.run, q.runs[p.run].(pending := {})) else moved
    else if p.phase.pc == 2 then
      var persisted := SetPhase(q, id, Running(3, p.phase.moved));
      if ok && p.run in q.runs then SetRun(persisted, p.run, q.runs[p.run].(recorded := q.runs[p.run].recorded + 1))
      else persisted
    else
      var settled := SetPhase(q, id, Settled);
      if p.run in q.runs then
        var row := q.runs[p.run];
        SetRun(settled, p.run, row.(emitted := row.emitted + [Emission(row.pending, p.phase.moved)]))
      else settled
  }

  function Next(q: Queues, step: Step): Queues {
    match step
    case Enqueue(run, work) => EnqueueOnRun(q, run, work)
    case Start(id) =>
      if id < |q.promises| && q.promises[id].phase.Waiting? && Free(q, id)
      then SetPhase(q, id, Running(0, false)) else q
    case Rows(id, pending) =>
      if Is(q, id, Report) && q.promises[id].run in q.runs
      then SetRun(q, q.promises[id].run, q.runs[q.promises[id].run].(pending := pending)) else q
    case ReportAborted(id) =>
      if Is(q, id, Report) && q.promises[id].run in q.runs then
        var row := q.runs[q.promises[id].run];
        SetRun(q, q.promises[id].run, row.(reported := row.reported + 1))
      else q
    case Act(id, ok) => if Is(q, id, Abort) then AbortStep(q, id, ok) else q
    case Done(id) => if Is(q, id, Report) then SetPhase(q, id, Settled) else q
    case Cleanup(id) =>
      if id < |q.promises| && q.promises[id].phase.Settled? && !q.promises[id].cleaned then CleanupChain(q, id) else q
    case FinishRun(run) => if run in q.runs then SetRun(q, run, q.runs[run].(finished := true)) else q
    case DeleteRun(run) => q.(runs := q.runs - {run}, chain := q.chain - {run})
  }

  function Run(q: Queues, steps: seq<Step>): Queues {
    if steps == [] then q else Next(Run(q, steps[..|steps| - 1]), steps[|steps| - 1])
  }

  // ---------------------------------------------------------------- one at a time, in order

  predicate SettledAt(ps: seq<Promise>, i: nat)
    requires i < |ps|
  {
    ps[i].phase.Settled?
  }

  /** Work of a run starts only when everything queued before it for that run has settled. */
  predicate InOrder(ps: seq<Promise>, run: nat) {
    forall i, j :: 0 <= i < j < |ps| && ps[i].run == run && ps[j].run == run && !ps[j].phase.Waiting? ==> SettledAt(ps, i)
  }

  /** Every promise is chained on the one queued just before it for its run, or all of those have settled. */
  predicate Chained(ps: seq<Promise>, run: nat) {
    forall j :: 0 <= j < |ps| && ps[j].run == run ==> ChainedAt(ps, run, j)
  }

  predicate ChainedAt(ps: seq<Promise>, run: nat, j: nat)
    requires j < |ps|
  {
    match ps[j].prev
    case None => forall i :: 0 <= i < j && ps[i].run == run ==> SettledAt(ps, i)
    case Some(p) => p < j && ps[p].run == run && forall i :: p < i < j ==> ps[i].run != run
  }

  /** The map holds the last promise of the run, until that is cleaned up; without an entry all have settled. */
  predicate TailKnown(q: Queues, run: nat) {
    if run in q.chain then
      && q.chain[run] < |q.promises| && q.promises[q.chain[run]].run == run && !q.promises[q.chain[run]].cleaned
      && forall i :: q.chain[run] < i < |q.promises| ==> q.promises[i].run != run
    else forall i :: 0 <= i < |q.promises| && q.promises[i].run == run ==> SettledAt(q.promises, i)
  }

  predicate Ordered(ps: seq<Promise>, run: nat) { InOrder(ps, run) && Chained(ps, run) }

  predicate RunServed(q: Queues, run: nat) { Ordered(q.promises, run) && TailKnown(q, run) }

  /** An abort past its check has seen no run.aborted, and past its transition leaves nothing pending. */
  predicate AbortSafe(q: Queues, id: nat)
    requires id < |q.promises|
  {
    var p := q.promises[id];
    p.work.Abort? && p.phase.Running? && p.run in q.runs ==>
      && (p.phase.pc == 1 || p.phase.pc == 2 ==> q.runs[p.run].recorded == 0)
      && (p.phase.pc >= 2 && p.phase.moved ==> q.runs[p.run].pending == {})
  }

  predicate RunSafe(row: RunRow) {
    && row.recorded <= 1
    && forall i :: 0 <= i < |row.emitted| && row.emitted[i].moved ==> row.emitted[i].pending == {}
  }

  /** Runs that still exist are served in order and aborted safely. */
  predicate Inv(q: Queues) {
    && (forall run :: run in q.runs ==> RunServed(q, run) && RunSafe(q.runs[run]))
    && (forall id :: 0 <= id < |q.promises| ==> AbortSafe(q, id))
  }

  // ---------------------------------------------------------------- serving in order

  /** A phase moving on keeps the order, if work only starts when everything before it has settled. */
  lemma PhaseKeepsOrdered(q: Queues, id: nat, phase: Phase, ps: seq<Promise>, run: nat)
    requires Ordered(q.promises, run) && id < |q.promises| && ps == SetPhase(q, id, phase).promises
    requires q.promises[id].phase.Settled? ==> phase.Settled?
    requires q.promises[id].run == run && q.promises[id].phase.Waiting? && !phase.Waiting? ==>
      (forall i :: 0 <= i < id && q.promises[i].run == run ==> SettledAt(q.promises, i))
    ensures Ordered(ps, run)
  {
    forall i, j | 0 <= i < j < |ps| && ps[i].run == run && ps[j].run == run && !ps[j].phase.Waiting? ensures SettledAt(ps, i) {
      assert SettledAt(q.promises, i);
    }
    forall j | 0 <= j < |ps| && ps[j].run == run ensures ChainedAt(ps, run, j) {
      assert ChainedAt(q.promises, run, j);
    }
  }

  lemma PhaseKeepsServed(q: Queues, id: nat, phase: Phase, r: Queues, run: nat)
    requires RunServed(q, run) && id < |q.promises| && r.promises == SetPhase(q, id, phase).promises && r.chain == q.chain
    requires q.promises[id].phase.Settled? ==> phase.Settled?
    requires q.promises[id].run == run && q.promises[id].phase.Waiting? && !phase.Waiting? ==>
      (forall i :: 0 <= i < id && q.promises[i].run == run ==> SettledAt(q.promises, i))
    ensures RunServed(r, run)
  {
    PhaseKeepsOrdered(q, id, phase, r.promises, run);
    TailStays(q, id, phase, r, run);
  }

  lemma TailStays(q: Queues, id: nat, phase: Phase, r: Queues, run: nat)
    requires TailKnown(q, run) && id < |q.promises| && r.promises == SetPhase(q, id, phase).promises && r.chain == q.chain
    requires q.promises[id].phase.Settled? ==> phase.Settled?
    ensures TailKnown(r, run)
  {
    if run !in q.chain {
      forall i | 0 <= i < |r.promises| && r.promises[i].run == run ensures SettledAt(r.promises, i) {
        assert SettledAt(q.promises, i);
      }
    }
  }

  /** What a promise waits for is all that was queued before it. */
  lemma FreeMeansFirst(q: Queues, id: nat, run: nat)
    requires Ordered(q.promises, run) && id < |q.promises| && q.promises[id].run == run && Free(q, id)
    ensures forall i :: 0 <= i < id && q.promises[i].run == run ==> SettledAt(q.promises, i)
  {
    assert ChainedAt(q.promises, run, id);
    if q.promises[id].prev.Some? {
      var p := q.promises[id].prev.value;
      forall i | 0 <= i < id && q.promises[i].run == run ensures SettledAt(q.promises, i) {
        assert !q.promises[p].phase.Waiting?;
        assert i <= p;
      }
    }
  }

  lemma EnqueueKeepsServed(q: Queues, other: nat, work: Work, run: nat)
    requires RunServed(q, run)
    ensures RunServed(EnqueueOnRun(q, other, work), run)
  {
    var r := EnqueueOnRun(q, other, work);
    var n := |q.promises|;
    assert forall i :: 0 <= i < n ==> r.promises[i] == q.promises[i];
    forall i, j | 0 <= i < j < |r.promises| && r.promises[i].run == run && r.promises[j].run == run
                  && !r.promises[j].phase.Waiting?
      ensures SettledAt(r.promises, i)
    {
      assert SettledAt(q.promises, i);
    }
    forall j | 0 <= j < |r.promises| && r.promises[j].run == run ensures ChainedAt(r.promises, run, j) {
      if j < n { assert ChainedAt(q.promises, run, j); } else { NewChained(q, r, run); }
    }
  }

  lemma NewChained(q: Queues, r: Queues, run: nat)
    requires RunServed(q, run) && |r.promises| == |q.promises| + 1
    requires forall i :: 0 <= i < |q.promises| ==> r.promises[i] == q.promises[i]
    requires r.promises[|q.promises|].run == run
    requires r.promises[|q.promises|].prev == if run in q.chain then Some(q.chain[run]) else None
    ensures ChainedAt(r.promises, run, |q.promises|)
  {
    if run !in q.chain {
      forall i | 0 <= i < |q.promises| && r.promises[i].run == run ensures SettledAt(r.promises, i) {
        assert SettledAt(q.promises, i);
      }
    }
  }

  lemma CleanupKeepsServed(q: Queues, id: nat, run: nat)
    requires RunServed(q, run) && id < |q.promises| && q.promises[id].phase.Settled? && !q.promises[id].cleaned
    ensures RunServed(CleanupChain(q, id), run)
  {
    var r := CleanupChain(q, id);
    forall i, j | 0 <= i < j < |r.promises| && r.promises[i].run == run && r.promises[j].run == run
                  && !r.promises[j].phase.Waiting?
      ensures SettledAt(r.promises, i)
    {
      assert SettledAt(q.promises, i);
    }
    forall j | 0 <= j < |r.promises| && r.promises[j].run == run ensures ChainedAt(r.promises, run, j) {
      assert ChainedAt(q.promises, run, j);
    }
    forall i | 0 <= i < |r.promises| && r.promises[i].run == run && run !in r.chain ensures SettledAt(r.promises, i) {
      if run in q.chain && i < id { assert SettledAt(q.promises, i); }
      if run !in q.chain { assert SettledAt(q.promises, i); }
    }
  }

  /** Two running pieces of work of one run would be out of order. */
  lemma OneAtATime(q: Queues, i: nat, j: nat)
    requires i < |q.promises| && j < |q.promises| && q.promises[i].run == q.promises[j].run
    requires RunServed(q, q.promises[i].run)
    requires q.promises[i].phase.Running? && q.promises[j].phase.Running?
    ensures i == j
  {
    assert i < j ==> SettledAt(q.promises, i);
    assert j < i ==> SettledAt(q.promises, j);
  }

  /** Serving looks at promises and chains, not at the rows. */
  lemma ServedSame(q: Queues, r: Queues, run: nat)
    requires RunServed(q, run) && r.promises == q.promises
    requires run in r.chain <==> run in q.chain
    requires run in q.chain ==> r.chain[run] == q.chain[run]
    ensures RunServed(r, run)
  {
  }

  lemma ActKeepsServed(q: Queues, id: nat, ok: bool, run: nat)
    requires RunServed(q, run) && Is(q, id, Abort)
    ensures RunServed(AbortStep(q, id, ok), run)
  {
    var r := AbortStep(q, id, ok);
    PhaseKeepsServed(q, id, r.promises[id].phase, SetPhase(q, id, r.promises[id].phase), run);
    ServedSame(SetPhase(q, id, r.promises[id].phase), r, run);
  }

  lemma StartKeepsServed(q: Queues, id: nat, run: nat)
    requires RunServed(q, run) && id < |q.promises| && q.promises[id].phase.Waiting? && Free(q, id)
    ensures RunServed(SetPhase(q, id, Running(0, false)), run)
  {
    if q.promises[id].run == run { FreeMeansFirst(q, id, run); }
    PhaseKeepsServed(q, id, Running(0, false), SetPhase(q, id, Running(0, false)), run);
  }

  lemma StepKeepsServed(q: Queues, step: Step, run: nat, r: Queues)
    requires RunServed(q, run) && r == Next(q, step) && step != DeleteRun(run)
    ensures RunServed(r, run)
  {
    match step
    case Enqueue(other, work) => EnqueueKeepsServed(q, other, work, run);
    case Start(id) =>
      if id < |q.promises| && q.promises[id].phase.Waiting? && Free(q, id) { StartKeepsServed(q, id, run); }
    case Rows(id, pending) => ServedSame(q, r, run);
    case ReportAborted(id) => ServedSame(q, r, run);
    case Act(id, ok) => if Is(q, id, Abort) { ActKeepsServed(q, id, ok, run); }
    case Done(id) => if Is(q, id, Report) { PhaseKeepsServed(q, id, Settled, r, run); }
    case Cleanup(id) =>
      if id < |q.promises| && q.promises[id].phase.Settled? && !q.promises[id].cleaned { CleanupKeepsServed(q, id, run); }
    case FinishRun(other) => ServedSame(q, r, run);
    case DeleteRun(other) => ServedSame(q, r, run);
  }

  // ---------------------------------------------------------------- aborting once

  /** Only one piece of work of a run is running, so no other abort of it is past its check. */
  lemma OthersIdle(q: Queues, id: nat, other: nat)
    requires Inv(q) && id < |q.promises| && other < |q.promises| && q.promises[id].run in q.runs
    requires q.promises[id].phase.Running? && q.promises[other].run == q.promises[id].run && other != id
    ensures !q.promises[other].phase.Running?
  {
    assert RunServed(q, q.promises[id].run);
    if q.promises[other].phase.Running? { OneAtATime(q, id, other); }
  }

  lemma ActKeepsOwnSafe(q: Queues, id: nat, ok: bool, r: Queues)
    requires Inv(q) && Is(q, id, Abort) && r == AbortStep(q, id, ok)
    ensures AbortSafe(r, id)
    ensures q.promises[id].run in r.runs ==> RunSafe(r.runs[q.promises[id].run])
  {
    assert AbortSafe(q, id);
    var run := q.promises[id].run;
    if run in q.runs { assert RunSafe(q.runs[run]); }
  }

  /** A statement of an abort touches its own promise and its own run. */
  lemma ActTouches(q: Queues, id: nat, ok: bool, r: Queues)
    requires Is(q, id, Abort) && r == AbortStep(q, id, ok)
    ensures |r.promises| == |q.promises| && r.promises[id].run == q.promises[id].run && r.runs.Keys == q.runs.Keys
    ensures forall i :: 0 <= i < |q.promises| && i != id ==> r.promises[i] == q.promises[i]
    ensures forall run :: run in q.runs && run != q.promises[id].run ==> r.runs[run] == q.runs[run]
  {
  }

  lemma ActKeepsSafe(q: Queues, id: nat, ok: bool, r: Queues)
    requires Inv(q) && Is(q, id, Abort) && r == AbortStep(q, id, ok)
    ensures forall i :: 0 <= i < |r.promises| ==> AbortSafe(r, i)
    ensures forall run :: run in r.runs ==> RunSafe(r.runs[run])
  {
    ActKeepsOwnSafe(q, id, ok, r);
    ActTouches(q, id, ok, r);
    forall i | 0 <= i < |r.promises| ensures AbortSafe(r, i) { ActKeepsOtherSafe(q, id, r, i); }
    forall run | run in r.runs ensures RunSafe(r.runs[run]) {
      if run != q.promises[id].run { assert RunSafe(q.runs[run]); }
    }
  }

  lemma ActKeepsOtherSafe(q: Queues, id: nat, r: Queues, i: nat)
    requires Inv(q) && Is(q, id, Abort) && i < |q.promises| == |r.promises| && AbortSafe(r, id)
    requires r.runs.Keys == q.runs.Keys && (i != id ==> r.promises[i] == q.promises[i])
    requires forall run :: run in q.runs && run != q.promises[id].run ==> r.runs[run] == q.runs[run]
    ensures AbortSafe(r, i)
  {
    if i != id {
      assert AbortSafe(q, i);
      var run := q.promises[i].run;
      assert run in r.runs <==> run in q.runs;
      if run == q.promises[id].run && run in q.runs { OthersIdle(q, id, i); }
    }
  }

  lemma RowsKeepSafe(q: Queues, id: nat, pending: set<string>, r: Queues)
    requires Inv(q) && Is(q, id, Report) && q.promises[id].run in q.runs && r == Next(q, Rows(id, pending))
    ensures forall i :: 0 <= i < |r.promises| ==> AbortSafe(r, i)
    ensures forall run :: run in r.runs ==> RunSafe(r.runs[run])
  {
    forall i | 0 <= i < |r.promises| ensures AbortSafe(r, i) {
      assert AbortSafe(q, i);
      if i != id && q.promises[i].run == q.promises[id].run { OthersIdle(q, id, i); }
    }
    forall run | run in r.runs ensures RunSafe(r.runs[run]) { assert RunSafe(q.runs[run]); }
  }

  predicate SameAborts(a: RunRow, b: RunRow) {
    a.pending == b.pending && a.recorded == b.recorded && a.emitted == b.emitted
  }

  /** Steps that leave aborts under way, and what rows recorded and emitted, as they were. */
  lemma QuietKeepsSafe(q: Queues, r: Queues)
    requires Inv(q) && |q.promises| <= |r.promises| && r.runs.Keys <= q.runs.Keys
    requires forall i :: 0 <= i < |r.promises| && r.promises[i].phase.Running? && r.promises[i].work.Abort? ==>
      r.promises[i].phase.pc == 0 || (i < |q.promises| && r.promises[i] == q.promises[i])
    requires forall run :: run in r.runs ==> SameAborts(q.runs[run], r.runs[run])
    ensures forall i :: 0 <= i < |r.promises| ==> AbortSafe(r, i)
    ensures forall run :: run in r.runs ==> RunSafe(r.runs[run])
  {
    forall i | 0 <= i < |r.promises| ensures AbortSafe(r, i) {
      if i < |q.promises| { assert AbortSafe(q, i); }
    }
    forall run | run in r.runs ensures RunSafe(r.runs[run]) { assert RunSafe(q.runs[run]); }
  }

  lemma StepKeepsSafe(q: Queues, step: Step, r: Queues)
    requires Inv(q) && r == Next(q, step)
    ensures forall i :: 0 <= i < |r.promises| ==> AbortSafe(r, i)
    ensures forall run :: run in r.runs ==> RunSafe(r.runs[run])
  {
    match step
    case Act(id, ok) =>
      if Is(q, id, Abort) { ActKeepsSafe(q, id, ok, r); } else { QuietKeepsSafe(q, r); }
    case Rows(id, pending) =>
      if Is(q, id, Report) && q.promises[id].run in q.runs { RowsKeepSafe(q, id, pending, r); } else { QuietKeepsSafe(q, r); }
    case Enqueue(run, work) =>
      assert forall i :: 0 <= i < |q.promises| ==> r.promises[i] == q.promises[i];
      QuietKeepsSafe(q, r);
    case Cleanup(id) => CleanupKeepsSafe(q, id, r);
    case _ => QuietKeepsSafe(q, r);
  }

  lemma CleanupKeepsSafe(q: Queues, id: nat, r: Queues)
    requires Inv(q) && r == Next(q, Cleanup(id))
    ensures forall i :: 0 <= i < |r.promises| ==> AbortSafe(r, i)
    ensures forall run :: run in r.runs ==> RunSafe(r.runs[run])
  {
    QuietKeepsSafe(q, r);
  }

  lemma StepKeepsInv(q: Queues, step: Step, r: Queues)
    requires Inv(q) && r == Next(q, step)
    ensures Inv(r)
  {
    StepKeepsSafe(q, step, r);
    forall run | run in r.runs ensures RunServed(r, run) {
      assert run in q.runs;
      assert RunServed(q, run);
      StepKeepsServed(q, step, run, r);
    }
  }

  // ---------------------------------------------------------------- every schedule

  /** A process with nothing queued yet: the runs that exist, none aborted through it. */
  predicate Fresh(q: Queues) {
    q.promises == [] && q.chain == map[] && forall run :: run in q.runs ==> q.runs[run].recorded == 0 && q.runs[run].emitted == []
  }

  lemma {:induction false} RunKeepsInv(q: Queues, steps: seq<Step>)
    requires Fresh(q)
    ensures Inv(Run(q, steps))
  {
    if steps != [] {
      RunKeepsInv(q, steps[..|steps| - 1]);
      StepKeepsInv(Run(q, steps[..|steps| - 1]), steps[|steps| - 1], Run(q, steps));
    }
  }

  /** Under any scheduling, work queued for a run that exists starts in the order it was queued, each piece after
      everything before it has settled; so no two pieces of work of a run overlap. */
  lemma ServedInOrder(q: Queues, steps: seq<Step>, i: nat, j: nat)
    requires Fresh(q)
    requires var r := Run(q, steps);
             i < j < |r.promises| && r.promises[i].run == r.promises[j].run && r.promises[j].run in r.runs
    ensures var r := Run(q, steps);
            && (!r.promises[j].phase.Waiting? ==> r.promises[i].phase.Settled?)
            && !(r.promises[i].phase.Running? && r.promises[j].phase.Running?)
  {
    RunKeepsInv(q, steps);
    var r := Run(q, steps);
    assert RunServed(r, r.promises[j].run);
    if !r.promises[j].phase.Waiting? { assert SettledAt(r.promises, i); }
  }

  /** Nothing blocks the queue: once everything before it has settled, failed or not, the next work can start. */
  lemma NextCanStart(q: Queues, steps: seq<Step>, j: nat)
    requires Fresh(q)
    requires var r := Run(q, steps);
             && j < |r.promises| && r.promises[j].phase.Waiting? && r.promises[j].run in r.runs
             && forall i :: 0 <= i < j && r.promises[i].run == r.promises[j].run ==> r.promises[i].phase.Settled?
    ensures Next(Run(q, steps), Start(j)).promises[j].phase.Running?
  {
    RunKeepsInv(q, steps);
    FirstCanStart(Run(q, steps), j);
  }

  lemma FirstCanStart(r: Queues, j: nat)
    requires j < |r.promises| && r.promises[j].phase.Waiting? && RunServed(r, r.promises[j].run)
    requires forall i :: 0 <= i < j && r.promises[i].run == r.promises[j].run ==> r.promises[i].phase.Settled?
    ensures Next(r, Start(j)).promises[j].phase.Running?
  {
    assert ChainedAt(r.promises, r.promises[j].run, j);
  }

  /** How often the schedule lets an abort issue its next statement. */
  function Acts(steps: seq<Step>, id: nat): nat {
    if steps == [] then 0
    else Acts(steps[..|steps| - 1], id) + (if steps[|steps| - 1].Act? && steps[|steps| - 1].id == id then 1 else 0)
  }

  /** Where a piece of work stands after one step. */
  lemma StepMoves(q: Queues, step: Step, id: nat, r: Queues)
    requires id < |q.promises| && r == Next(q, step)
    ensures id < |r.promises| && r.promises[id].work == q.promises[id].work
    ensures q.promises[id].phase.Settled? ==> r.promises[id].phase.Settled?
    ensures Is(q, id, Abort) && !(step.Act? && step.id == id) ==> r.promises[id].phase == q.promises[id].phase
    ensures Is(q, id, Abort) && step.Act? && step.id == id ==>
              r.promises[id].phase.Settled? ||
              (r.promises[id].phase.Running? && r.promises[id].phase.pc == q.promises[id].phase.pc + 1 <= 3)
    ensures Is(q, id, Report) && step == Done(id) ==> r.promises[id].phase.Settled?
    ensures Is(q, id, Report) && step != Done(id) ==> Is(r, id, Report)
  {
  }

  lemma {:induction false} AbortMoves(q: Queues, id: nat, steps: seq<Step>)
    requires Is(q, id, Abort)
    ensures var r := Run(q, steps);
            && id < |r.promises| && r.promises[id].work.Abort?
            && (r.promises[id].phase.Settled? ||
                (r.promises[id].phase.Running? && r.promises[id].phase.pc == q.promises[id].phase.pc + Acts(steps, id)
                 && (Acts(steps, id) > 0 ==> r.promises[id].phase.pc <= 3)))
  {
    if steps != [] {
      var front := steps[..|steps| - 1];
      AbortMoves(q, id, front);
      StepMoves(Run(q, front), steps[|steps| - 1], id, Run(q, steps));
    }
  }

  /** An abort that is running settles within four statements, whatever else happens between them and however they fare. */
  lemma AbortSettles(q: Queues, id: nat, steps: seq<Step>)
    requires Is(q, id, Abort) && Acts(steps, id) >= 4
    ensures id < |Run(q, steps).promises| && Run(q, steps).promises[id].phase.Settled?
  {
    AbortMoves(q, id, steps);
  }

  /** Sweeper, explicit abort and reconciler together record at most one run.aborted for a run, and every
      emission whose transition went through finds no row of the run pending. */
  lemma AbortedOnce(q: Queues, steps: seq<Step>, run: nat)
    requires Fresh(q) && run in Run(q, steps).runs
    ensures var row := Run(q, steps).runs[run];
            && row.recorded <= 1
            && forall i :: 0 <= i < |row.emitted| && row.emitted[i].moved ==> row.emitted[i].pending == {}
  {
    RunKeepsInv(q, steps);
    assert RunSafe(Run(q, steps).runs[run]);
  }

  /** An abort that finds its run gone, finished or already aborted settles without a trace. */
  lemma TerminalRunsStay(q: Queues, id: nat, ok: bool)
    requires Is(q, id, Abort) && q.promises[id].phase.pc == 0
    requires var run := q.promises[id].run;
             run !in q.runs || q.runs[run].finished || q.runs[run].recorded + q.runs[run].reported > 0
    ensures var r := Next(q, Act(id, ok)); r.runs == q.runs && r.promises[id].phase.Settled?
  {
  }

  /** Chains leave no entry behind: once the run's promises are cleaned up, the map forgets it. */
  lemma ChainsAreFreed(q: Queues, steps: seq<Step>, run: nat)
    requires Fresh(q) && run in Run(q, steps).runs
    requires var r := Run(q, steps); forall i :: 0 <= i < |r.promises| && r.promises[i].run == run ==> r.promises[i].cleaned
    ensures run !in Run(q, steps).chain
  {
    RunKeepsInv(q, steps);
    assert RunServed(Run(q, steps), run);
  }

  // ---------------------------------------------------------------- the map, updated in place

  class EventChains {
    var promises: seq<Promise>
    var chain: map<nat, nat>
    ghost const runs: map<nat, RunRow>

    ghost function Now(): Queues
      reads this
    {
      Queues(promises, chain, runs)
    }

    constructor (ghost rows: map<nat, RunRow>)
      requires Fresh(Queues([], map[], rows))
      ensures Now() == Queues([], map[], rows) && Inv(Now())
    {
      promises, chain, runs := [], map[], rows;
      new;
      RunKeepsInv(Now(), []);
    }

    /** Chain work behind whatever the run has queued; the promise returned settles when the work has. */
    method Append(run: nat, work: Work) returns (id: nat)
      requires Inv(Now())
      modifies this
      ensures Now() == EnqueueOnRun(old(Now()), run, work) && id == |old(promises)| && Inv(Now())
    {
      ghost var before := Now();
      var previous := if run in chain then Some(chain[run]) else None;
      id := |promises|;
      promises := promises + [Promise(run, work, previous, Waiting, false)];
      chain := chain[run := id];
      StepKeepsInv(before, Enqueue(run, work), Now());
    }

    /** A settled promise frees the entry, unless later work has been chained on it. */
    method Finally(id: nat)
      requires Inv(Now()) && id < |promises| && promises[id].phase.Settled? && !promises[id].cleaned
      modifies this
      ensures Now() == CleanupChain(old(Now()), id) && Inv(Now())
    {
      ghost var before := Now();
      var run := promises[id].run;
      promises := promises[id := promises[id].(cleaned := true)];
      if run in chain && chain[run] == id { chain := chain - {run}; }
      StepKeepsInv(before, Cleanup(id), Now());
    }
  }
}
