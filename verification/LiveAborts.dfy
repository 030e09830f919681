// What an abort queued on a run's chain does, statement by statement and as a whole, whatever else the
// process does between its statements.
module LiveAborts {
  import opened Text
  import opened LiveQueue

  // ---------------------------------------------------------------- one statement

  /** Only this promise's phase, and this run's row, differ. */
  predicate Elsewhere(q: Queues, id: nat, run: nat, r: Queues)
    requires id < |q.promises|
  {
    && r.chain == q.chain && |r.promises| == |q.promises| && r.promises[id] == q.promises[id].(phase := r.promises[id].phase)
    && (forall i :: 0 <= i < |q.promises| && i != id ==> r.promises[i] == q.promises[i])
    && r.runs.Keys == q.runs.Keys && forall other :: other in q.runs && other != run ==> r.runs[other] == q.runs[other]
  }

  /** The check: the abort goes on only for a run that is there, has not finished and was never aborted. */
  predicate CheckTells(q: Queues, id: nat, run: nat, ok: bool, r: Queues)
    requires id < |q.promises| && id < |r.promises|
  {
    && r.runs == q.runs
    && (ok && run in q.runs && !q.runs[run].finished && q.runs[run].recorded == 0 && q.runs[run].reported == 0
        ==> r.promises[id].phase == Running(1, false))
    && (!ok || run !in q.runs || q.runs[run].finished || q.runs[run].recorded != 0 || q.runs[run].reported != 0
        ==> r.promises[id].phase == Settled)
  }

  /** The row of the run after the n-th statement: nothing pending, one run.aborted more, or one emission more. */
  predicate RowTells(was: RunRow, pc: nat, moved: bool, ok: bool, row: RunRow) {
    && row.finished == was.finished && row.reported == was.reported
    && row.pending == (if pc == 1 && ok then {} else was.pending)
    && row.recorded == (if pc == 2 && ok then was.recorded + 1 else was.recorded)
    && row.emitted == (if pc >= 3 then was.emitted + [Emission(was.pending, moved)] else was.emitted)
  }

  lemma ActTells(q: Queues, id: nat, ok: bool, r: Queues)
    requires Is(q, id, Abort) && r == Next(q, Act(id, ok))
    ensures Elsewhere(q, id, q.promises[id].run, r)
    ensures var p, now := q.promises[id], r.promises[id].phase;
            && (p.phase.pc == 0 ==> CheckTells(q, id, p.run, ok, r))
            && (p.phase.pc == 1 ==> now == Running(2, ok)) && (p.phase.pc == 2 ==> now == Running(3, p.phase.moved))
            && (p.phase.pc >= 3 ==> now == Settled)
            && (p.run in q.runs ==> RowTells(q.runs[p.run], p.phase.pc, p.phase.moved, ok, r.runs[p.run]))
  {
  }

  // ---------------------------------------------------------------- the other statements

  /** A report writes its run's rows and records its run.aborted; a final upload finishes a run; a deleted run leaves
      neither row nor chain. */
  lemma OthersTell(q: Queues, step: Step, r: Queues)
    requires r == Next(q, step)
    ensures step.Rows? && Is(q, step.id, Report) && q.promises[step.id].run in q.runs ==>
              var run := q.promises[step.id].run;
              && Elsewhere(q, step.id, run, r) && r.promises == q.promises
              && r.runs[run] == RunRow(q.runs[run].finished, step.pending, q.runs[run].recorded, q.runs[run].reported, q.runs[run].emitted)
    ensures step.ReportAborted? && Is(q, step.id, Report) && q.promises[step.id].run in q.runs ==>
              var run := q.promises[step.id].run;
              && Elsewhere(q, step.id, run, r) && r.promises == q.promises
              && r.runs[run] == RunRow(q.runs[run].finished, q.runs[run].pending, q.runs[run].recorded, q.runs[run].reported + 1, q.runs[run].emitted)
    ensures step.FinishRun? ==>
              && r.promises == q.promises && r.chain == q.chain && r.runs.Keys == q.runs.Keys
              && forall run :: run in q.runs ==>
                   r.runs[run] == RunRow(q.runs[run].finished || run == step.run, q.runs[run].pending, q.runs[run].recorded,
                                         q.runs[run].reported, q.runs[run].emitted)
    ensures step.DeleteRun? ==> r.promises == q.promises && r.runs == q.runs - {step.run} && r.chain == q.chain - {step.run}
  {
  }

  // ---------------------------------------------------------------- a whole abort

  /** Where an abort that passed its check stands: what it did so far, on top of the emissions there were. */
  predicate Along(q: Queues, id: nat, was: seq<Emission>) {
    && id < |q.promises| && q.promises[id].work.Abort? && q.promises[id].run in q.runs
    && var row := q.runs[q.promises[id].run];
       match q.promises[id].phase
       case Waiting => false
       case Running(pc, moved) =>
         && 1 <= pc <= 3 && row.emitted == was && row.recorded == (if pc == 3 then 1 else 0)
         && (pc >= 2 ==> moved && row.pending == {})
       case Settled => row.recorded == 1 && row.emitted == was + [Emission({}, true)] && NoneUnderWay(q, q.promises[id].run)
  }

  /** No abort of the run is past its check. */
  predicate NoneUnderWay(q: Queues, run: nat) {
    forall i :: 0 <= i < |q.promises| && q.promises[i].run == run && q.promises[i].work.Abort? && q.promises[i].phase.Running?
      ==> q.promises[i].phase.pc == 0
  }

  lemma OwnAct(q: Queues, id: nat, was: seq<Emission>, r: Queues)
    requires Inv(q) && Along(q, id, was) && Is(q, id, Abort) && r == Next(q, Act(id, true))
    ensures Along(r, id, was)
  {
    ActTells(q, id, true, r);
    if r.promises[id].phase.Settled? {
      forall i | 0 <= i < |r.promises| && i != id && r.promises[i].run == q.promises[id].run
        ensures !r.promises[i].phase.Running?
      {
        OthersIdle(q, id, i);
      }
    }
  }

  /** Another abort of the run is not running beside this one, and later does not pass its check. */
  lemma OtherAct(q: Queues, id: nat, was: seq<Emission>, other: nat, ok: bool, r: Queues)
    requires Inv(q) && Along(q, id, was) && other != id && Is(q, other, Abort) && r == Next(q, Act(other, ok))
    ensures Along(r, id, was)
  {
    ActTells(q, other, ok, r);
    if q.promises[other].run == q.promises[id].run && q.promises[id].phase.Running? { OthersIdle(q, id, other); }
  }

  lemma OtherReport(q: Queues, id: nat, was: seq<Emission>, step: Step, r: Queues)
    requires Inv(q) && Along(q, id, was) && (step.Rows? || step.ReportAborted? || step.Done?) && r == Next(q, step)
    ensures Along(r, id, was)
  {
    if Is(q, step.id, Report) && q.promises[step.id].run == q.promises[id].run && q.promises[id].phase.Running? {
      OthersIdle(q, id, step.id);
    }
  }

  lemma StepKeepsAlong(q: Queues, id: nat, was: seq<Emission>, step: Step, r: Queues)
    requires Inv(q) && Along(q, id, was) && r == Next(q, step) && q.promises[id].run in r.runs
    requires step.Act? && step.id == id ==> step.ok
    ensures Along(r, id, was)
  {
    match step
    case Act(other, ok) =>
      if Is(q, other, Abort) {
        if other == id { OwnAct(q, id, was, r); } else { OtherAct(q, id, was, other, ok, r); }
      }
    case Rows(_, _) => OtherReport(q, id, was, step, r);
    case ReportAborted(_) => OtherReport(q, id, was, step, r);
    case Done(_) => OtherReport(q, id, was, step, r);
    case Cleanup(_) => CleanupKeepsAlong(q, id, was, step, r);
    case Enqueue(_, _) => EnqueueKeepsAlong(q, id, was, step, r);
    case _ =>
  }

  lemma CleanupKeepsAlong(q: Queues, id: nat, was: seq<Emission>, step: Step, r: Queues)
    requires Along(q, id, was) && step.Cleanup? && r == Next(q, step)
    ensures Along(r, id, was)
  {
  }

  lemma EnqueueKeepsAlong(q: Queues, id: nat, was: seq<Emission>, step: Step, r: Queues)
    requires Along(q, id, was) && step.Enqueue? && r == Next(q, step)
    ensures Along(r, id, was)
  {
    assert r.promises[id] == q.promises[id];
    forall i | 0 <= i < |r.promises| && r.promises[i].phase.Running? ensures i < |q.promises| && r.promises[i] == q.promises[i] {}
  }

  /** Once its row is gone a run does not come back. */
  lemma {:induction false} RowsOnlyGo(q: Queues, steps: seq<Step>)
    ensures Run(q, steps).runs.Keys <= q.runs.Keys
  {
    if steps != [] { RowsOnlyGo(q, steps[..|steps| - 1]); }
  }

  lemma {:induction false} RunKeepsInvOf(q: Queues, steps: seq<Step>)
    requires Inv(q)
    ensures Inv(Run(q, steps))
  {
    if steps != [] {
      RunKeepsInvOf(q, steps[..|steps| - 1]);
      StepKeepsInv(Run(q, steps[..|steps| - 1]), steps[|steps| - 1], Run(q, steps));
    }
  }

  predicate GoesWell(steps: seq<Step>, id: nat) { Act(id, false) !in steps }

  lemma {:induction false} StaysAlong(q: Queues, id: nat, was: seq<Emission>, steps: seq<Step>)
    requires Inv(q) && Along(q, id, was) && GoesWell(steps, id) && q.promises[id].run in Run(q, steps).runs
    ensures Along(Run(q, steps), id, was) && Run(q, steps).promises[id].run == q.promises[id].run
  {
    if steps != [] {
      var front, last := steps[..|steps| - 1], steps[|steps| - 1];
      assert last in steps;
      var before := Run(q, front);
      assert q.promises[id].run in before.runs by { RowsOnlyGo(before, [last]); OneStep(before, last); }
      StaysAlong(q, id, was, front);
      RunKeepsInvOf(q, front);
      StepKeepsAlong(before, id, was, last, Run(q, steps));
      RunStays(before, last, id);
    }
  }

  lemma OneStep(q: Queues, step: Step)
    ensures Run(q, [step]) == Next(q, step)
  {
    assert [step][..0] == [];
    assert Run(q, []) == q;
  }

  lemma RunStays(q: Queues, step: Step, id: nat)
    requires id < |q.promises|
    ensures id < |Next(q, step).promises| && Next(q, step).promises[id].run == q.promises[id].run
  {
  }

  /** An abort that passed its check, none of whose statements fails and whose run is not deleted meanwhile, takes
      effect exactly once, whatever happens between its statements and afterwards: nothing was pending when it emitted,
      one run.aborted is recorded for the run, and one emission more was made. */
  lemma AbortTakesEffect(q: Queues, id: nat, steps: seq<Step>)
    requires Inv(q) && Is(q, id, Abort) && q.promises[id].phase.pc == 1 && q.promises[id].run in q.runs
    requires GoesWell(steps, id) && Acts(steps, id) >= 3 && q.promises[id].run in Run(q, steps).runs
    ensures var r, run := Run(q, steps), q.promises[id].run;
            && id < |r.promises| && r.promises[id].phase.Settled?
            && r.runs[run].recorded == 1 && r.runs[run].emitted == q.runs[run].emitted + [Emission({}, true)]
  {
    assert AbortSafe(q, id);
    StaysAlong(q, id, q.runs[q.promises[id].run].emitted, steps);
    AbortMoves(q, id, steps);
  }
}
