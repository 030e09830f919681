// Deleting a live run while requests for it are under way: the row goes first, the run is forgotten
// later, and a request that found the row before it went may queue its work after that.
module LiveForget {
  import opened Text
  import opened LiveQueue

  /** The process: its queues, the requests that have found their run, the runs registered in memory, and the runs
      whose row a delete has removed but which it has not forgotten yet. */
  datatype Server = Server(q: Queues, admitted: map<nat, nat>, known: set<nat>, deleting: set<nat>)

  datatype Move =
    | Check(req: nat, run: nat)       // the ownership check of a request finds the run
    | Post(req: nat, work: Work)      // and the request queues its work; events register the run
    | Register(run: nat)              // a run is started
    | Sweep(run: nat)                 // the stale sweep queues an abort of a registered run
    | RemoveRow(run: nat)             // DELETE FROM runs … RETURNING
    | ForgetRun(run: nat)             // forgetLiveRun, once for the row removed
    | Work(step: Step)                // whatever the queues do

  /** Queueing and deleting are the moves above. */
  predicate Inner(step: Step) { !step.Enqueue? && !step.DeleteRun? }

  function Forget(q: Queues, run: nat): Queues { q.(chain := q.chain - {run}) }

  function After(v: Server, move: Move): Server {
    match move
    case Check(req, run) => if run in v.q.runs then v.(admitted := v.admitted[req := run]) else v
    case Post(req, work) =>
      if req in v.admitted then
        v.(q := EnqueueOnRun(v.q, v.admitted[req], work), admitted := v.admitted - {req},
           known := if work.Report? then v.known + {v.admitted[req]} else v.known)
      else v
    case Register(run) => if run in v.q.runs then v.(known := v.known + {run}) else v
    case Sweep(run) => if run in v.known then v.(q := EnqueueOnRun(v.q, run, Abort)) else v
    case RemoveRow(run) =>
      if run in v.q.runs then v.(q := v.q.(runs := v.q.runs - {run}), deleting := v.deleting + {run}) else v
    case ForgetRun(run) =>
      if run in v.deleting then v.(q := Forget(v.q, run), known := v.known - {run}, deleting := v.deleting - {run}) else v
    case Work(step) => if Inner(step) then v.(q := Next(v.q, step)) else v
  }

  function Moves(v: Server, moves: seq<Move>): Server {
    if moves == [] then v else After(Moves(v, moves[..|moves| - 1]), moves[|moves| - 1])
  }

  predicate Started(v: Server) {
    Fresh(v.q) && v.admitted == map[] && v.known == {} && v.deleting == {}
  }

  predicate AllSettled(q: Queues, run: nat) {
    forall i :: 0 <= i < |q.promises| && q.promises[i].run == run ==> SettledAt(q.promises, i)
  }

  /** A request for the run has passed its check and not queued its work yet. */
  predicate Expected(v: Server, run: nat) {
    exists req :: req in v.admitted && v.admitted[req] == run
  }

  /** The run is gone, not registered, and no request for it is left. */
  predicate Unreachable(v: Server, run: nat) {
    run !in v.q.runs && run !in v.known && !Expected(v, run)
  }

  // ---------------------------------------------------------------- one move

  /** No move brings a run's row back. */
  lemma RowsGo(v: Server, move: Move)
    ensures After(v, move).q.runs.Keys <= v.q.runs.Keys
  {
  }

  lemma AfterKeepsServed(v: Server, move: Move, run: nat, w: Server)
    requires RunServed(v.q, run) && w == After(v, move) && move != ForgetRun(run)
    ensures RunServed(w.q, run)
  {
    match move
    case Check(_, _) =>
    case Post(req, work) => if req in v.admitted { EnqueueKeepsServed(v.q, v.admitted[req], work, run); }
    case Register(_) =>
    case Sweep(other) => if other in v.known { EnqueueKeepsServed(v.q, other, Abort, run); }
    case RemoveRow(other) => ServedSame(v.q, w.q, run);
    case ForgetRun(other) => ServedSame(v.q, w.q, run);
    case Work(step) => if Inner(step) { StepKeepsServed(v.q, step, run, w.q); }
  }

  /** Without new work for the run, its order needs no tail to be known. */
  lemma StepKeepsOrdered(q: Queues, step: Step, run: nat, r: Queues)
    requires Ordered(q.promises, run) && r == Next(q, step) && Inner(step)
    ensures Ordered(r.promises, run)
  {
    match step
    case Start(id) =>
      if id < |q.promises| && q.promises[id].phase.Waiting? && Free(q, id) {
        if q.promises[id].run == run { FreeMeansFirst(q, id, run); }
        PhaseKeepsOrdered(q, id, Running(0, false), r.promises, run);
      }
    case Act(id, ok) =>
      if Is(q, id, Abort) {
        assert r.promises == SetPhase(q, id, r.promises[id].phase).promises;
        PhaseKeepsOrdered(q, id, r.promises[id].phase, r.promises, run);
      }
    case Done(id) => if Is(q, id, Report) { PhaseKeepsOrdered(q, id, Settled, r.promises, run); }
    case Cleanup(id) =>
      if id < |q.promises| && q.promises[id].phase.Settled? && !q.promises[id].cleaned { CleanedKeepsOrdered(q, id, run, r.promises); }
    case _ =>
  }

  lemma CleanedKeepsOrdered(q: Queues, id: nat, run: nat, ps: seq<Promise>)
    requires Ordered(q.promises, run) && id < |q.promises| && ps == q.promises[id := q.promises[id].(cleaned := true)]
    ensures Ordered(ps, run)
  {
    forall i, j | 0 <= i < j < |ps| && ps[i].run == run && ps[j].run == run && !ps[j].phase.Waiting? ensures SettledAt(ps, i) {
      assert SettledAt(q.promises, i);
    }
    forall j | 0 <= j < |ps| && ps[j].run == run ensures ChainedAt(ps, run, j) {
      assert ChainedAt(q.promises, run, j);
    }
  }

  lemma OtherEnqueued(q: Queues, other: nat, work: LiveQueue.Work, run: nat)
    requires Ordered(q.promises, run) && other != run
    ensures Ordered(EnqueueOnRun(q, other, work).promises, run)
  {
    var ps := EnqueueOnRun(q, other, work).promises;
    forall i, j | 0 <= i < j < |ps| && ps[i].run == run && ps[j].run == run && !ps[j].phase.Waiting? ensures SettledAt(ps, i) {
      assert SettledAt(q.promises, i);
    }
    forall j | 0 <= j < |ps| && ps[j].run == run ensures ChainedAt(ps, run, j) {
      assert ChainedAt(q.promises, run, j);
    }
  }

  /** Such a run gets no new work. */
  lemma AfterKeepsOrdered(v: Server, move: Move, run: nat, w: Server)
    requires Ordered(v.q.promises, run) && Unreachable(v, run) && w == After(v, move)
    ensures Ordered(w.q.promises, run) && Unreachable(w, run)
  {
    RowsGo(v, move);
    match move
    case Post(req, work) => if req in v.admitted { OtherEnqueued(v.q, v.admitted[req], work, run); }
    case Sweep(other) => if other in v.known { OtherEnqueued(v.q, other, Abort, run); }
    case Work(step) => if Inner(step) { StepKeepsOrdered(v.q, step, run, w.q); }
    case _ =>
  }

  // ---------------------------------------------------------------- any moves

  lemma {:induction false} MovesKeepOrdered(v: Server, moves: seq<Move>, run: nat)
    requires Ordered(v.q.promises, run) && Unreachable(v, run)
    ensures var w := Moves(v, moves); Ordered(w.q.promises, run) && Unreachable(w, run)
  {
    if moves != [] {
      var front := moves[..|moves| - 1];
      MovesKeepOrdered(v, front, run);
      AfterKeepsOrdered(Moves(v, front), moves[|moves| - 1], run, Moves(v, moves));
    }
  }

  /** A run that is gone and forgotten is not forgotten again. */
  lemma {:induction false} MovesKeepServed(v: Server, moves: seq<Move>, run: nat)
    requires RunServed(v.q, run) && run !in v.q.runs && run !in v.deleting
    ensures var w := Moves(v, moves); RunServed(w.q, run) && run !in w.q.runs && run !in w.deleting
  {
    if moves != [] {
      var u, move := Moves(v, moves[..|moves| - 1]), moves[|moves| - 1];
      MovesKeepServed(v, moves[..|moves| - 1], run);
      RowsGo(u, move);
      if move == ForgetRun(run) { assert After(u, move) == u; } else { AfterKeepsServed(u, move, run, After(u, move)); }
    }
  }

  predicate NotForgotten(moves: seq<Move>, run: nat) { ForgetRun(run) !in moves }

  /** Until it is forgotten, a run is served in order, its row there or not. */
  lemma {:induction false} ServedUntilForgotten(v: Server, moves: seq<Move>, run: nat)
    requires Started(v) && NotForgotten(moves, run)
    ensures RunServed(Moves(v, moves).q, run)
  {
    if moves != [] {
      var front := moves[..|moves| - 1];
      assert moves[|moves| - 1] in moves;
      ServedUntilForgotten(v, front, run);
      AfterKeepsServed(Moves(v, front), moves[|moves| - 1], run, Moves(v, moves));
    }
  }

  // ---------------------------------------------------------------- forgetting

  /** A run being deleted has no row. */
  lemma {:induction false} DeletingIsGone(v: Server, moves: seq<Move>, run: nat)
    requires Started(v) && run in Moves(v, moves).deleting
    ensures run !in Moves(v, moves).q.runs
  {
    if moves != [] {
      var u, move := Moves(v, moves[..|moves| - 1]), moves[|moves| - 1];
      RowsGo(u, move);
      if run in u.deleting { DeletingIsGone(v, moves[..|moves| - 1], run); }
    }
  }

  lemma ForgottenServed(q: Queues, run: nat)
    requires RunServed(q, run)
    ensures Ordered(Forget(q, run).promises, run)
    ensures AllSettled(q, run) ==> RunServed(Forget(q, run), run)
  {
  }

  /** New work of a forgotten run waits for nothing. */
  lemma StartsAtOnce(w: Server, req: nat, work: LiveQueue.Work, run: nat, i: nat) returns (moves: seq<Move>)
    requires req in w.admitted && w.admitted[req] == run && run !in w.q.chain
    requires i < |w.q.promises| && w.q.promises[i].run == run && !SettledAt(w.q.promises, i)
    ensures !InOrder(Moves(w, moves).q.promises, run)
  {
    var j := |w.q.promises|;
    moves := [Post(req, work)] + [Work(Start(j))];
    var u := After(w, Post(req, work));
    assert moves[..1] == [Post(req, work)] && [Post(req, work)][..0] == [];
    assert Moves(w, [Post(req, work)]) == u;
    var r := Moves(w, moves);
    assert r == After(u, Work(Start(j)));
    assert u.q.promises[j].prev == None && r.q.promises[j].phase.Running?;
    assert r.q.promises[i] == w.q.promises[i] && !SettledAt(r.q.promises, i);
  }

  ghost predicate StaysInOrder(w: Server, run: nat) {
    forall moves :: InOrder(Moves(w, moves).q.promises, run)
  }

  /** A run is deleted, at any moment: whatever happens from then on, its work stays in order, no piece starting before
      all queued earlier has settled, if and only if at the moment it is forgotten all of its work has settled or no
      request that found it before the delete has work still to queue. */
  lemma ForgottenInOrderIff(v: Server, moves: seq<Move>, run: nat)
    requires Started(v) && NotForgotten(moves, run) && run in Moves(v, moves).deleting
    ensures var u := Moves(v, moves);
            StaysInOrder(After(u, ForgetRun(run)), run) <==> AllSettled(u.q, run) || !Expected(u, run)
  {
    ServedUntilForgotten(v, moves, run);
    DeletingIsGone(v, moves, run);
    var u := Moves(v, moves);
    var w := After(u, ForgetRun(run));
    ForgottenServed(u.q, run);
    if AllSettled(u.q, run) {
      forall more ensures InOrder(Moves(w, more).q.promises, run) { MovesKeepServed(w, more, run); }
    } else if !Expected(u, run) {
      assert Unreachable(w, run);
      forall more ensures InOrder(Moves(w, more).q.promises, run) { MovesKeepOrdered(w, more, run); }
    } else {
      var req :| req in u.admitted && u.admitted[req] == run;
      var i: nat :| i < |u.q.promises| && u.q.promises[i].run == run && !SettledAt(u.q.promises, i);
      var more := StartsAtOnce(w, req, Report, run, i);
    }
  }
}
