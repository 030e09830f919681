// How callers that ask for one ticket end, in any interleaving: what each read, lock and failure leads to,
// and that no caller waits for a lock that nobody will give back.
module TicketEnds {
  import opened Text
  import opened Tickets

  /** Nothing but one caller's phase and the locks differs. */
  predicate OnlyMoves(d: Desk, c: nat, phase: Phase, e: Desk)
    requires c in d.callers
  {
    e.callers == d.callers[c := Caller(d.callers[c].org, d.callers[c].fingerprint, phase)]
    && e.rows == d.rows && e.issues == d.issues
  }

  lemma {:induction false} FindsIt(rows: seq<Row>, row: Row)
    requires OneRowEach(rows) && row in rows
    ensures Find(rows, row.org, row.fingerprint) == Some(row)
  {
    var found := Find(rows, row.org, row.fingerprint);
    if found.Some? { SameRow(rows, found.value, row); }
  }

  predicate HasRow(d: Desk, c: nat, row: Row)
    requires c in d.callers
  {
    row in d.rows && row.org == d.callers[c].org && row.fingerprint == d.callers[c].fingerprint
  }

  /** A caller whose failure has a row returns the recorded key, at its first read or, having waited for the lock
      while another caller recorded the issue, at its second; the lock is then free. */
  lemma ReadReturns(d: Desk, hash: string -> int, c: nat, row: Row, e: Desk)
    requires Inv(d, hash) && (At(d, c, Calling) || At(d, c, Locked)) && HasRow(d, c, row)
    requires e == Next(d, hash, if At(d, c, Calling) then FastRead(c) else Recheck(c))
    ensures OnlyMoves(d, c, Returned(row.key), e)
    ensures At(d, c, Calling) ==> e.locks == d.locks
    ensures At(d, c, Locked) ==> e.locks == d.locks - {(row.org, hash(row.fingerprint))}
  {
    FindsIt(d.rows, row);
  }

  /** A caller whose failure has no row goes on: to ask for the lock, and then, keeping it, to create the issue. */
  lemma ReadGoesOn(d: Desk, hash: string -> int, c: nat, e: Desk)
    requires (At(d, c, Calling) || At(d, c, Locked)) && NoRow(d.rows, d.callers[c])
    requires e == Next(d, hash, if At(d, c, Calling) then FastRead(c) else Recheck(c))
    ensures OnlyMoves(d, c, if At(d, c, Calling) then Wanting else Creating, e) && e.locks == d.locks
  {
  }

  /** A lock is granted when it is free, and waited for otherwise. */
  lemma LockWaits(d: Desk, hash: string -> int, c: nat, e: Desk)
    requires At(d, c, Wanting) && e == Next(d, hash, Lock(c))
    ensures var lock := (d.callers[c].org, hash(d.callers[c].fingerprint));
            if lock in d.locks then e == d else OnlyMoves(d, c, Locked, e) && e.locks == d.locks[lock := c]
  {
  }

  /** A caller that fails leaves every row, gives up its own lock, and loses the issue it may have made. */
  lemma FailureTells(d: Desk, hash: string -> int, c: nat, e: Desk)
    requires c in d.callers && !d.callers[c].phase.Returned? && !d.callers[c].phase.Failed? && e == Next(d, hash, Fail(c))
    ensures OnlyMoves(d.(issues := e.issues), c, Failed, e) && |e.issues| == |d.issues|
    ensures forall i :: 0 <= i < |d.issues| ==>
              e.issues[i] == if d.issues[i].creator == c then d.issues[i].(lost := true) else d.issues[i]
    ensures e.locks == if Holding(d.callers[c].phase) then d.locks - {(d.callers[c].org, hash(d.callers[c].fingerprint))} else d.locks
  {
  }

  /** A remote call that throws is a failure of the caller, and one that made the issue all the same leaves it lost. */
  lemma RemoteTells(d: Desk, hash: string -> int, c: nat, remote: Remote, e: Desk)
    requires At(d, c, Creating) && e == Next(d, hash, Create(c, remote))
    ensures remote.NotMade? ==> e == Next(d, hash, Fail(c))
    ensures remote.MadeButFailed? ==>
              e == Next(d.(issues := d.issues + [Issue(d.callers[c].org, d.callers[c].fingerprint, remote.key, c, false)]), hash, Fail(c))
    ensures remote.Made? ==>
              OnlyMoves(d.(issues := d.issues + [Issue(d.callers[c].org, d.callers[c].fingerprint, remote.key, c, false)]),
                        c, Created(remote.key), e) && e.locks == d.locks
  {
  }

  /** The insert and the commit record the issue's own key for the caller's failure, and the lock is free again. */
  lemma RecordTells(d: Desk, hash: string -> int, c: nat, key: string, answered: bool, inserted: Desk, e: Desk)
    requires Inv(d, hash) && At(d, c, Created(key))
    requires inserted == Next(d, hash, Insert(c)) && e == Next(inserted, hash, Commit(c, answered))
    ensures OnlyMoves(d, c, Inserted(key), inserted) && inserted.locks == d.locks
    ensures e.rows == d.rows + [Row(d.callers[c].org, d.callers[c].fingerprint, key, c)] && e.issues == d.issues
    ensures e.callers == d.callers[c := Caller(d.callers[c].org, d.callers[c].fingerprint, if answered then Returned(key) else Failed)]
    ensures e.locks == d.locks - {(d.callers[c].org, hash(d.callers[c].fingerprint))}
  {
    assert CallerOk(d, hash, c);
  }

  // ---------------------------------------------------------------- locks are given back

  /** Every lock is held by a caller at work under it: none outlives its holder's transaction. */
  predicate LocksHeld(d: Desk, hash: string -> int) {
    forall lock :: lock in d.locks ==>
      && d.locks[lock] in d.callers && Holding(d.callers[d.locks[lock]].phase)
      && lock == (d.callers[d.locks[lock]].org, hash(d.callers[d.locks[lock]].fingerprint))
  }

  /** A caller that ends, or moves on under its lock, leaves the other locks alone. */
  lemma MovedKeepsLocks(d: Desk, hash: string -> int, c: nat, e: Desk)
    requires LocksHeld(d, hash) && c in d.callers && c in e.callers && SameFailure(d.callers[c], e.callers[c])
    requires e.callers == d.callers[c := e.callers[c]]
    requires var lock := LockKey(hash, d.callers[c]);
             || (e.locks == d.locks && (Holding(d.callers[c].phase) ==> Holding(e.callers[c].phase)))
             || (e.locks == d.locks - {lock})
             || (e.locks == d.locks[lock := c] && Holding(e.callers[c].phase))
    ensures LocksHeld(e, hash)
  {
  }

  lemma StepKeepsLocks(d: Desk, hash: string -> int, step: Step, e: Desk)
    requires Inv(d, hash) && LocksHeld(d, hash) && e == Next(d, hash, step)
    ensures LocksHeld(e, hash)
  {
    var c := step.c;
    if c in d.callers {
      assert CallerOk(d, hash, c);
      MovedKeepsLocks(d, hash, c, e);
    }
  }

  lemma {:induction false} RunKeepsLocks(d: Desk, hash: string -> int, steps: seq<Step>)
    requires Fresh(d)
    ensures LocksHeld(Run(d, hash, steps), hash)
  {
    if steps != [] {
      RunKeepsInv(d, hash, steps[..|steps| - 1]);
      RunKeepsLocks(d, hash, steps[..|steps| - 1]);
      StepKeepsLocks(Run(d, hash, steps[..|steps| - 1]), hash, steps[|steps| - 1], Run(d, hash, steps));
    }
  }

  /** Nobody waits for good: in every reachable state a caller that wants the lock can have it, at once or as soon as
      the caller that holds it, which is at work, ends, be it by failing. */
  lemma WaitingEnds(d: Desk, hash: string -> int, steps: seq<Step>, c: nat)
    requires Fresh(d) && At(Run(d, hash, steps), c, Wanting)
    ensures var e := Run(d, hash, steps);
            var lock := (e.callers[c].org, hash(e.callers[c].fingerprint));
            || (lock !in e.locks && At(Next(e, hash, Lock(c)), c, Locked))
            || (lock in e.locks && e.locks[lock] != c
                && At(Next(Next(e, hash, Fail(e.locks[lock])), hash, Lock(c)), c, Locked))
  {
    RunKeepsLocks(d, hash, steps);
  }

  // ---------------------------------------------------------------- how a caller ends

  /** The step makes the caller fail: a query or the connection fails, the remote call returns no key, or the commit
      is not answered. */
  predicate FailsAt(d: Desk, step: Step, c: nat) {
    match step
    case Fail(b) => b == c && c in d.callers && !d.callers[c].phase.Returned? && !d.callers[c].phase.Failed?
    case Create(b, remote) => b == c && At(d, c, Creating) && !remote.Made?
    case Commit(b, answered) => b == c && c in d.callers && d.callers[c].phase.Inserted? && !answered
    case _ => false
  }

  /** The step makes the caller return the key: it reads the row, or its own commit is answered. */
  predicate ReturnsAt(d: Desk, step: Step, c: nat, key: string) {
    match step
    case FastRead(b) => b == c && At(d, c, Calling) && Recorded(d.rows, d.callers[c], key)
    case Recheck(b) => b == c && At(d, c, Locked) && Recorded(d.rows, d.callers[c], key)
    case Commit(b, answered) => b == c && At(d, c, Inserted(key)) && answered
    case _ => false
  }

  lemma RecordedIs(d: Desk, c: nat, key: string)
    requires OneRowEach(d.rows) && c in d.callers
    ensures var found := Find(d.rows, d.callers[c].org, d.callers[c].fingerprint);
            Recorded(d.rows, d.callers[c], key) <==> found.Some? && found.value.key == key
  {
    var found := Find(d.rows, d.callers[c].org, d.callers[c].fingerprint);
    if found.Some? && Recorded(d.rows, d.callers[c], key) { OneKey(d.rows, d.callers[c], d.callers[c], key, found.value.key); }
  }

  /** A step is one caller's: every other one stands where it stood. */
  lemma OthersStand(d: Desk, hash: string -> int, step: Step, b: nat, e: Desk)
    requires e == Next(d, hash, step) && b != step.c
    ensures (b in e.callers <==> b in d.callers) && (b in d.callers ==> e.callers[b] == d.callers[b])
  {
  }

  /** An end is for good, and one step ends a caller in exactly these ways. */
  lemma OneStepFails(d: Desk, hash: string -> int, step: Step, c: nat, e: Desk)
    requires Inv(d, hash) && e == Next(d, hash, step)
    ensures At(e, c, Failed) <==> At(d, c, Failed) || FailsAt(d, step, c)
  {
    if c in d.callers { assert CallerOk(d, hash, c); }
  }

  lemma OneStepReturns(d: Desk, hash: string -> int, step: Step, c: nat, key: string, e: Desk)
    requires Inv(d, hash) && e == Next(d, hash, step)
    ensures At(e, c, Returned(key)) <==> At(d, c, Returned(key)) || ReturnsAt(d, step, c, key)
  {
    if step.c != c {
      OthersStand(d, hash, step, c, e);
    } else if c in d.callers {
      RecordedIs(d, c, key);
      assert CallerOk(d, hash, c);
    }
  }

  predicate FailsNth(d: Desk, hash: string -> int, steps: seq<Step>, k: nat, c: nat)
    requires k < |steps|
  {
    FailsAt(Run(d, hash, steps[..k]), steps[k], c)
  }

  predicate ReturnsNth(d: Desk, hash: string -> int, steps: seq<Step>, k: nat, c: nat, key: string)
    requires k < |steps|
  {
    ReturnsAt(Run(d, hash, steps[..k]), steps[k], c, key)
  }

  predicate EverFails(d: Desk, hash: string -> int, steps: seq<Step>, c: nat) {
    exists k :: 0 <= k < |steps| && FailsNth(d, hash, steps, k, c)
  }

  predicate EverReturns(d: Desk, hash: string -> int, steps: seq<Step>, c: nat, key: string) {
    exists k :: 0 <= k < |steps| && ReturnsNth(d, hash, steps, k, c, key)
  }

  lemma NthSame(d: Desk, hash: string -> int, steps: seq<Step>, front: seq<Step>, k: nat, c: nat, key: string)
    requires k < |front| <= |steps| && front == steps[..|front|]
    ensures FailsNth(d, hash, steps, k, c) == FailsNth(d, hash, front, k, c)
    ensures ReturnsNth(d, hash, steps, k, c, key) == ReturnsNth(d, hash, front, k, c, key)
  {
    assert steps[..k] == front[..k];
  }

  lemma FailsNext(d: Desk, hash: string -> int, steps: seq<Step>, front: seq<Step>, c: nat)
    requires steps != [] && front == steps[..|steps| - 1]
    ensures EverFails(d, hash, steps, c) <==> EverFails(d, hash, front, c) || FailsNth(d, hash, steps, |front|, c)
  {
    forall k: nat | k < |front| ensures FailsNth(d, hash, steps, k, c) == FailsNth(d, hash, front, k, c) {
      NthSame(d, hash, steps, front, k, c, "");
    }
  }

  lemma ReturnsNext(d: Desk, hash: string -> int, steps: seq<Step>, front: seq<Step>, c: nat, key: string)
    requires steps != [] && front == steps[..|steps| - 1]
    ensures EverReturns(d, hash, steps, c, key) <==>
              EverReturns(d, hash, front, c, key) || ReturnsNth(d, hash, steps, |front|, c, key)
  {
    forall k: nat | k < |front|
      ensures ReturnsNth(d, hash, steps, k, c, key) == ReturnsNth(d, hash, front, k, c, key)
    {
      NthSame(d, hash, steps, front, k, c, key);
    }
  }

  /** In any interleaving a caller has failed if and only if a query of its own failed, its remote call returned no
      key or its commit was not answered, and has returned a key if and only if it read it, or committed it itself. */
  lemma {:induction false} EndsIff(d: Desk, hash: string -> int, steps: seq<Step>, c: nat, key: string)
    requires Fresh(d)
    ensures At(Run(d, hash, steps), c, Failed) <==> EverFails(d, hash, steps, c)
    ensures At(Run(d, hash, steps), c, Returned(key)) <==> EverReturns(d, hash, steps, c, key)
  {
    if steps != [] {
      var front := steps[..|steps| - 1];
      EndsIff(d, hash, front, c, key);
      FailsNext(d, hash, steps, front, c);
      ReturnsNext(d, hash, steps, front, c, key);
      RunKeepsInv(d, hash, front);
      OneStepFails(Run(d, hash, front), hash, steps[|front|], c, Run(d, hash, steps));
      OneStepReturns(Run(d, hash, front), hash, steps[|front|], c, key, Run(d, hash, steps));
    }
  }

  /** So a caller that has ended without a failure of its own returned the key that is recorded. */
  lemma EndsWithTheKey(d: Desk, hash: string -> int, steps: seq<Step>, c: nat)
    requires Fresh(d) && !EverFails(d, hash, steps, c)
    requires var e := Run(d, hash, steps); c in e.callers && (e.callers[c].phase.Returned? || e.callers[c].phase.Failed?)
    ensures var e := Run(d, hash, steps);
            e.callers[c].phase.Returned? && Recorded(e.rows, e.callers[c], e.callers[c].phase.key)
  {
    var e := Run(d, hash, steps);
    EndsIff(d, hash, steps, c, "");
    OneRecordedIssue(d, hash, steps, c, c);
  }
}
