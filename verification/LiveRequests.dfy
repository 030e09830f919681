// What a live server holds in memory after any moves: which requests are still expected, which runs are
// registered, which are being deleted, whose rows are there, and what was queued, each told by the moves.
module LiveRequests {
  import opened Text
  import opened LiveQueue
  import opened LiveForget

  // ---------------------------------------------------------------- the last of two kinds of moves

  /** Among the first n moves one that switches on comes after every one that switches off. */
  ghost predicate LastOn(n: nat, on: nat -> bool, off: nat -> bool) {
    exists k: nat :: k < n && on(k) && forall j: nat :: k < j < n ==> !off(j)
  }

  lemma LastOnNext(n: nat, on: nat -> bool, off: nat -> bool)
    ensures LastOn(n + 1, on, off) <==> on(n) || (LastOn(n, on, off) && !off(n))
  {
    if LastOn(n, on, off) && !off(n) {
      var k: nat :| k < n && on(k) && forall j: nat :: k < j < n ==> !off(j);
      assert on(k) && forall j: nat :: k < j < n + 1 ==> !off(j);
    }
    if LastOn(n + 1, on, off) && !on(n) {
      var k: nat :| k < n + 1 && on(k) && forall j: nat :: k < j < n + 1 ==> !off(j);
      assert k < n;
    }
  }

  /** The server when the k-th move is made, and the move. */
  function Then(v: Server, moves: seq<Move>, k: nat): Server
    requires k <= |moves|
  {
    Moves(v, moves[..k])
  }

  lemma ThenNext(v: Server, moves: seq<Move>, k: nat)
    requires k < |moves|
    ensures Then(v, moves, k + 1) == After(Then(v, moves, k), moves[k])
  {
    assert moves[..k + 1][..k] == moves[..k];
  }

  // ---------------------------------------------------------------- rows

  /** A run's row is there until a delete removes it. */
  lemma {:induction false} RowThereIff(v: Server, moves: seq<Move>, n: nat, run: nat)
    requires n <= |moves|
    ensures run in Then(v, moves, n).q.runs <==> run in v.q.runs && forall k :: 0 <= k < n ==> moves[k] != RemoveRow(run)
  {
    if n == 0 {
      assert moves[..0] == [];
    } else {
      RowThereIff(v, moves, n - 1, run);
      ThenNext(v, moves, n - 1);
      RowMoves(Then(v, moves, n - 1), moves[n - 1], run);
    }
  }

  lemma RowMoves(v: Server, move: Move, run: nat)
    ensures run in After(v, move).q.runs <==> run in v.q.runs && move != RemoveRow(run)
  {
  }

  // ---------------------------------------------------------------- requests

  /** The request's ownership check finds the run. */
  predicate Admits(v: Server, move: Move, req: nat, run: nat) { move == Check(req, run) && run in v.q.runs }

  /** The request queues its work, or is checked for another run. */
  predicate Leaves(v: Server, move: Move, req: nat, run: nat) {
    (move.Post? && move.req == req) || (move.Check? && move.req == req && move.run != run && move.run in v.q.runs)
  }

  lemma RequestMoves(v: Server, move: Move, req: nat, run: nat, w: Server)
    requires w == After(v, move)
    ensures req in w.admitted && w.admitted[req] == run
            <==> Admits(v, move, req, run) || (req in v.admitted && v.admitted[req] == run && !Leaves(v, move, req, run))
  {
  }

  function AdmitsAt(v: Server, moves: seq<Move>, req: nat, run: nat): nat -> bool {
    (k: nat) => k < |moves| && Admits(Then(v, moves, k), moves[k], req, run)
  }

  function LeavesAt(v: Server, moves: seq<Move>, req: nat, run: nat): nat -> bool {
    (k: nat) => k < |moves| && Leaves(Then(v, moves, k), moves[k], req, run)
  }

  /** A request has passed its check for a run, and its work is still to be queued, if and only if its last check that
      found the run comes after its last post and its last check for another run. */
  lemma {:induction false} AdmittedIff(v: Server, moves: seq<Move>, n: nat, req: nat, run: nat)
    requires v.admitted == map[] && n <= |moves|
    ensures var w := Then(v, moves, n);
            req in w.admitted && w.admitted[req] == run <==> LastOn(n, AdmitsAt(v, moves, req, run), LeavesAt(v, moves, req, run))
  {
    if n == 0 {
      assert moves[..0] == [];
    } else {
      AdmittedIff(v, moves, n - 1, req, run);
      LastOnNext(n - 1, AdmitsAt(v, moves, req, run), LeavesAt(v, moves, req, run));
      ThenNext(v, moves, n - 1);
      RequestMoves(Then(v, moves, n - 1), moves[n - 1], req, run, Then(v, moves, n));
    }
  }

  // ---------------------------------------------------------------- registered runs

  /** A start finds the run's row, or events of the run are queued. */
  predicate Registers(v: Server, move: Move, run: nat) {
    (move == Register(run) && run in v.q.runs)
    || (move.Post? && move.work.Report? && move.req in v.admitted && v.admitted[move.req] == run)
  }

  /** A delete that removed the run's row forgets it. */
  predicate Forgets(v: Server, move: Move, run: nat) { move == ForgetRun(run) && run in v.deleting }

  lemma KnownMoves(v: Server, move: Move, run: nat, w: Server)
    requires w == After(v, move)
    ensures run in w.known <==> Registers(v, move, run) || (run in v.known && !Forgets(v, move, run))
  {
  }

  function RegistersAt(v: Server, moves: seq<Move>, run: nat): nat -> bool {
    (k: nat) => k < |moves| && Registers(Then(v, moves, k), moves[k], run)
  }

  function ForgetsAt(v: Server, moves: seq<Move>, run: nat): nat -> bool {
    (k: nat) => k < |moves| && Forgets(Then(v, moves, k), moves[k], run)
  }

  /** A run is registered if and only if it was started, or sent events, since a delete last forgot it. */
  lemma {:induction false} KnownIff(v: Server, moves: seq<Move>, n: nat, run: nat)
    requires v.known == {} && n <= |moves|
    ensures run in Then(v, moves, n).known <==> LastOn(n, RegistersAt(v, moves, run), ForgetsAt(v, moves, run))
  {
    if n == 0 {
      assert moves[..0] == [];
    } else {
      KnownIff(v, moves, n - 1, run);
      LastOnNext(n - 1, RegistersAt(v, moves, run), ForgetsAt(v, moves, run));
      ThenNext(v, moves, n - 1);
      KnownMoves(Then(v, moves, n - 1), moves[n - 1], run, Then(v, moves, n));
    }
  }

  // ---------------------------------------------------------------- deletes

  predicate Removes(v: Server, move: Move, run: nat) { move == RemoveRow(run) && run in v.q.runs }

  lemma DeletingMoves(v: Server, move: Move, run: nat, w: Server)
    requires w == After(v, move)
    ensures run in w.deleting <==> Removes(v, move, run) || (run in v.deleting && move != ForgetRun(run))
    ensures Forgets(v, move, run) ==> run !in w.q.chain && w.q.promises == v.q.promises && w.q.runs == v.q.runs
    ensures Removes(v, move, run) ==> w.q.chain == v.q.chain && w.q.promises == v.q.promises
  {
  }

  function RemovesAt(v: Server, moves: seq<Move>, run: nat): nat -> bool {
    (k: nat) => k < |moves| && Removes(Then(v, moves, k), moves[k], run)
  }

  function ForgetsIt(moves: seq<Move>, run: nat): nat -> bool { (k: nat) => k < |moves| && moves[k] == ForgetRun(run) }

  /** A run is being deleted if and only if its row was removed and it has not been forgotten since. */
  lemma {:induction false} DeletingIff(v: Server, moves: seq<Move>, n: nat, run: nat)
    requires v.deleting == {} && n <= |moves|
    ensures run in Then(v, moves, n).deleting <==> LastOn(n, RemovesAt(v, moves, run), ForgetsIt(moves, run))
  {
    if n == 0 {
      assert moves[..0] == [];
    } else {
      DeletingIff(v, moves, n - 1, run);
      LastOnNext(n - 1, RemovesAt(v, moves, run), ForgetsIt(moves, run));
      ThenNext(v, moves, n - 1);
      DeletingMoves(Then(v, moves, n - 1), moves[n - 1], run, Then(v, moves, n));
    }
  }

  // ---------------------------------------------------------------- what is queued

  /** What a move queues: the work of a request that passed its check, for the run it found, or an abort of a
      registered run. */
  function Queues1(v: Server, move: Move): seq<(nat, LiveQueue.Work)> {
    match move
    case Post(req, work) => if req in v.admitted then [(v.admitted[req], work)] else []
    case Sweep(run) => if run in v.known then [(run, Abort)] else []
    case _ => []
  }

  function QueuedBy(v: Server, moves: seq<Move>, n: nat): seq<(nat, LiveQueue.Work)>
    requires n <= |moves|
  {
    if n == 0 then [] else QueuedBy(v, moves, n - 1) + Queues1(Then(v, moves, n - 1), moves[n - 1])
  }

  /** The promises are of this work, in this order. */
  predicate AreOf(promises: seq<Promise>, queued: seq<(nat, LiveQueue.Work)>) {
    |promises| == |queued| && forall i :: 0 <= i < |promises| ==> promises[i].run == queued[i].0 && promises[i].work == queued[i].1
  }

  lemma OneQueued(v: Server, move: Move, queued: seq<(nat, LiveQueue.Work)>, w: Server)
    requires AreOf(v.q.promises, queued) && w == After(v, move)
    ensures AreOf(w.q.promises, queued + Queues1(v, move))
  {
    if move.Work? && Inner(move.step) { StepQueuesNothing(v.q, move.step, queued, w.q); }
  }

  lemma StepQueuesNothing(q: Queues, step: Step, queued: seq<(nat, LiveQueue.Work)>, r: Queues)
    requires AreOf(q.promises, queued) && Inner(step) && r == Next(q, step)
    ensures AreOf(r.promises, queued)
  {
  }

  /** Nothing is queued twice, lost or queued out of turn: the promises are exactly the work of the posts of requests
      that passed their check, each once, and the sweeps of registered runs, in the order they were made. */
  lemma {:induction false} QueuedAre(v: Server, moves: seq<Move>, n: nat)
    requires v.q.promises == [] && n <= |moves|
    ensures AreOf(Then(v, moves, n).q.promises, QueuedBy(v, moves, n))
  {
    if n == 0 {
      assert moves[..0] == [];
    } else {
      QueuedAre(v, moves, n - 1);
      ThenNext(v, moves, n - 1);
      OneQueued(Then(v, moves, n - 1), moves[n - 1], QueuedBy(v, moves, n - 1), Then(v, moves, n));
    }
  }
}
