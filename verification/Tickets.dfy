// Creating at most one Jira issue per failure: callers that read, lock, read again, create the
// issue remotely and record it, in any interleaving, with failures at every step.
module Tickets {
  import opened Text
  import Normalized

  /** A recorded issue, and the caller whose transaction recorded it. */
  datatype Row = Row(org: nat, fingerprint: string, key: string, author: nat)

  /** An issue that exists in Jira. It is lost when its creator's transaction rolled back. */
  datatype Issue = Issue(org: nat, fingerprint: string, key: string, creator: nat, lost: bool)

  /** Where a caller stands: before the lock, holding it, having found no row, having created the issue, having
      inserted the row, and finished with the key it returns, or failed. */
  datatype Phase =
    | Calling
    | Wanting
    | Locked
    | Creating
    | Created(key: string)
    | Inserted(key: string)
    | Returned(key: string)
    | Failed

  datatype Caller = Caller(org: nat, fingerprint: string, phase: Phase)

  datatype Desk = Desk(rows: seq<Row>, locks: map<(nat, int), nat>, callers: map<nat, Caller>, issues: seq<Issue>)

  /** What comes of the remote call. A call that fails may have created the issue all the same. */
  datatype Remote = Made(key: string) | NotMade | MadeButFailed(key: string)

  datatype Step =
    | Call(c: nat, org: nat, fingerprint: string)
    | FastRead(c: nat)
    | Lock(c: nat)
    | Recheck(c: nat)
    | Create(c: nat, remote: Remote)
    | Insert(c: nat)
    | Commit(c: nat, answered: bool) // the row is recorded; the caller may see an error all the same
    | Fail(c: nat)                  // a query fails, or the connection does: rollback

  function Find(rows: seq<Row>, org: nat, fingerprint: string): (r: Option<Row>)
    ensures r.Some? ==> r.value in rows && r.value.org == org && r.value.fingerprint == fingerprint
    ensures r.None? ==> forall row :: row in rows ==> row.org != org || row.fingerprint != fingerprint
  {
    if rows == [] then None
    else
      assert rows == rows[..|rows| - 1] + [rows[|rows| - 1]];
      if rows[|rows| - 1].org == org && rows[|rows| - 1].fingerprint == fingerprint then Some(rows[|rows| - 1])
      else Find(rows[..|rows| - 1], org, fingerprint)
  }

  /** The advisory lock a caller takes: its organisation and a hash, which may collide. */
  function LockKey(hash: string -> int, caller: Caller): (nat, int) { (caller.org, hash(caller.fingerprint)) }

  predicate At(d: Desk, c: nat, phase: Phase) { c in d.callers && d.callers[c].phase == phase }

  function Move(d: Desk, c: nat, phase: Phase): Desk
    requires c in d.callers
  {
    d.(callers := d.callers[c := d.callers[c].(phase := phase)])
  }

  function Released(d: Desk, key: (nat, int)): Desk { d.(locks := d.locks - {key}) }

  predicate Holding(phase: Phase) {
    phase.Locked? || phase.Creating? || phase.Created? || phase.Inserted?
  }

  function Lost(issues: seq<Issue>, c: nat): (r: seq<Issue>)
    ensures |r| == |issues|
    ensures forall i :: 0 <= i < |r| ==> r[i] == if issues[i].creator == c then issues[i].(lost := true) else issues[i]
  {
    seq(|issues|, i requires 0 <= i < |issues| => if issues[i].creator == c then issues[i].(lost := true) else issues[i])
  }

  /** ROLLBACK: the lock goes, the row was never there, and an issue already created is lost. */
  function RolledBack(d: Desk, hash: string -> int, c: nat): Desk
    requires c in d.callers
  {
    var failed := Move(d, c, Failed).(issues := Lost(d.issues, c));
    if Holding(d.callers[c].phase) then Released(failed, LockKey(hash, d.callers[c])) else failed
  }

  /** The remote call, and a rollback when it throws. */
  function CreatedBy(d: Desk, hash: string -> int, c: nat, remote: Remote): Desk
    requires c in d.callers
  {
    match remote
    case NotMade => RolledBack(d, hash, c)
    case Made(key) => WithIssue(Move(d, c, Created(key)), c, key)
    case MadeButFailed(key) => RolledBack(WithIssue(d, c, key), hash, c)
  }

  function Next(d: Desk, hash: string -> int, step: Step): Desk {
    match step
    case Call(c, org, fingerprint) =>
      if c in d.callers then d else d.(callers := d.callers[c := Caller(org, fingerprint, Calling)])
    case FastRead(c) =>
      if !At(d, c, Calling) then d
      else
        var row := Find(d.rows, d.callers[c].org, d.callers[c].fingerprint);
        Move(d, c, if row.Some? then Returned(row.value.key) else Wanting)
    case Lock(c) =>
      if !At(d, c, Wanting) || LockKey(hash, d.callers[c]) in d.locks then d
      else Move(d, c, Locked).(locks := d.locks[LockKey(hash, d.callers[c]) := c])
    case Recheck(c) =>
      if !At(d, c, Locked) then d
      else
        var row := Find(d.rows, d.callers[c].org, d.callers[c].fingerprint);
        if row.Some? then Released(Move(d, c, Returned(row.value.key)), LockKey(hash, d.callers[c]))
        else Move(d, c, Creating)
    case Create(c, remote) => if At(d, c, Creating) then CreatedBy(d, hash, c, remote) else d
    case Insert(c) =>
      if c !in d.callers || !d.callers[c].phase.Created? then d
      else if Find(d.rows, d.callers[c].org, d.callers[c].fingerprint).Some? then RolledBack(d, hash, c)
      else Move(d, c, Inserted(d.callers[c].phase.key))
    case Commit(c, answered) =>
      if c !in d.callers || !d.callers[c].phase.Inserted? then d
      else
        var caller := d.callers[c];
        var recorded := Move(d, c, if answered then Returned(caller.phase.key) else Failed).(
          rows := d.rows + [Row(caller.org, caller.fingerprint, caller.phase.key, c)]);
        Released(recorded, LockKey(hash, caller))
    case Fail(c) =>
      if c !in d.callers || d.callers[c].phase.Returned? || d.callers[c].phase.Failed? then d else RolledBack(d, hash, c)
  }

  function WithIssue(d: Desk, c: nat, key: string): Desk
    requires c in d.callers
  {
    d.(issues := d.issues + [Issue(d.callers[c].org, d.callers[c].fingerprint, key, c, false)])
  }

  function Run(d: Desk, hash: string -> int, steps: seq<Step>): Desk {
    if steps == [] then d else Next(Run(d, hash, steps[..|steps| - 1]), hash, steps[|steps| - 1])
  }

  // ---------------------------------------------------------------- what every step keeps

  predicate SameFailure(a: Caller, b: Caller) { a.org == b.org && a.fingerprint == b.fingerprint }

  predicate NoRow(rows: seq<Row>, caller: Caller) {
    forall row :: row in rows ==> row.org != caller.org || row.fingerprint != caller.fingerprint
  }

  /** The failure's recorded issue has this key. */
  predicate Recorded(rows: seq<Row>, caller: Caller, key: string) {
    exists row :: row in rows && row.org == caller.org && row.fingerprint == caller.fingerprint && row.key == key
  }

  predicate Working(phase: Phase) { phase.Creating? || phase.Created? || phase.Inserted? }

  /** Holders have the lock; those past the re-check know there is no row; those that returned a key read it. */
  predicate CallerOk(d: Desk, hash: string -> int, c: nat)
    requires c in d.callers
  {
    var caller := d.callers[c];
    && (Holding(caller.phase) ==> LockKey(hash, caller) in d.locks && d.locks[LockKey(hash, caller)] == c)
    && (Working(caller.phase) ==> NoRow(d.rows, caller))
    && (caller.phase.Returned? ==> Recorded(d.rows, caller, caller.phase.key))
    && (!caller.phase.Created? && !caller.phase.Inserted? && !caller.phase.Returned? && !caller.phase.Failed? ==>
          forall i :: 0 <= i < |d.issues| ==> d.issues[i].creator != c)
  }

  predicate OneRowEach(rows: seq<Row>) {
    forall i, j :: 0 <= i < j < |rows| ==> rows[i].org != rows[j].org || rows[i].fingerprint != rows[j].fingerprint
  }

  predicate RecordedBy(rows: seq<Row>, issue: Issue) {
    Row(issue.org, issue.fingerprint, issue.key, issue.creator) in rows
  }

  /** An issue that is not lost is recorded, or its creator is about to record it. */
  predicate IssueOk(d: Desk, i: nat)
    requires i < |d.issues|
  {
    var issue := d.issues[i];
    && issue.creator in d.callers
    && d.callers[issue.creator].org == issue.org && d.callers[issue.creator].fingerprint == issue.fingerprint
    && (issue.lost || RecordedBy(d.rows, issue)
        || d.callers[issue.creator].phase == Created(issue.key) || d.callers[issue.creator].phase == Inserted(issue.key))
  }

  predicate OneIssueEach(issues: seq<Issue>) {
    forall i, j :: 0 <= i < j < |issues| ==> issues[i].creator != issues[j].creator
  }

  predicate Inv(d: Desk, hash: string -> int) {
    && (forall c :: c in d.callers ==> CallerOk(d, hash, c))
    && OneRowEach(d.rows) && OneIssueEach(d.issues)
    && forall i :: 0 <= i < |d.issues| ==> IssueOk(d, i)
  }

  /** Two callers at work on one failure, or on failures whose locks collide, are the same caller. */
  lemma SoleHolder(d: Desk, hash: string -> int, a: nat, b: nat)
    requires Inv(d, hash) && a in d.callers && b in d.callers
    requires Holding(d.callers[a].phase) && Holding(d.callers[b].phase)
    requires LockKey(hash, d.callers[a]) == LockKey(hash, d.callers[b])
    ensures a == b
  {
    assert CallerOk(d, hash, a) && CallerOk(d, hash, b);
  }

  /** A caller that only moves, with its lock kept or released, disturbs no other caller. */
  lemma OthersKept(d: Desk, e: Desk, hash: string -> int, c: nat, b: nat)
    requires Inv(d, hash) && c in d.callers && b in d.callers && b != c && c in e.callers
    requires e.callers == d.callers[c := e.callers[c]] && e.rows == d.rows && SameFailure(d.callers[c], e.callers[c])
    requires e.locks == d.locks || (Holding(d.callers[c].phase) && e.locks == d.locks - {LockKey(hash, d.callers[c])})
             || (LockKey(hash, d.callers[c]) !in d.locks && e.locks == d.locks[LockKey(hash, d.callers[c]) := c])
    requires forall i :: 0 <= i < |e.issues| ==> e.issues[i].creator == c || (i < |d.issues| && e.issues[i].creator == d.issues[i].creator)
    ensures CallerOk(e, hash, b)
  {
    assert CallerOk(d, hash, b);
    if Holding(d.callers[b].phase) && Holding(d.callers[c].phase) && LockKey(hash, d.callers[b]) == LockKey(hash, d.callers[c]) {
      SoleHolder(d, hash, b, c);
    }
  }

  /** An issue of another caller, as long as it and the rows are kept, stays accounted for. */
  lemma IssueKept(d: Desk, e: Desk, hash: string -> int, c: nat, i: nat)
    requires Inv(d, hash) && i < |d.issues| && i < |e.issues| && e.issues[i] == d.issues[i]
    requires c in d.callers && c in e.callers && e.callers == d.callers[c := e.callers[c]] && SameFailure(d.callers[c], e.callers[c])
    requires forall row :: row in d.rows ==> row in e.rows
    requires d.issues[i].creator != c || d.issues[i].lost || RecordedBy(d.rows, d.issues[i])
    ensures IssueOk(e, i)
  {
    assert IssueOk(d, i);
  }

  lemma RollbackKeepsInv(d: Desk, hash: string -> int, c: nat, e: Desk)
    requires Inv(d, hash) && c in d.callers && !d.callers[c].phase.Returned? && e == RolledBack(d, hash, c)
    ensures Inv(e, hash)
  {
    assert CallerOk(d, hash, c);
    forall b | b in e.callers ensures CallerOk(e, hash, b) {
      if b != c { OthersKept(d, e, hash, c, b); }
    }
    forall i | 0 <= i < |e.issues| ensures IssueOk(e, i) {
      assert IssueOk(d, i);
    }
  }

  /** A step that moves caller c before it has an issue, or keeps the phase's key. */
  lemma MoveKeepsInv(d: Desk, hash: string -> int, c: nat, e: Desk)
    requires Inv(d, hash) && c in d.callers && c in e.callers && e.rows == d.rows && e.issues == d.issues
    requires e.callers == d.callers[c := e.callers[c]] && SameFailure(d.callers[c], e.callers[c])
    requires e.locks == d.locks || (Holding(d.callers[c].phase) && e.locks == d.locks - {LockKey(hash, d.callers[c])})
             || (LockKey(hash, d.callers[c]) !in d.locks && e.locks == d.locks[LockKey(hash, d.callers[c]) := c])
    requires CallerOk(e, hash, c)
    requires (d.callers[c].phase.Created? && e.callers[c].phase == Inserted(d.callers[c].phase.key))
             || (!d.callers[c].phase.Created? && !d.callers[c].phase.Inserted?)
    ensures Inv(e, hash)
  {
    forall b | b in e.callers ensures CallerOk(e, hash, b) {
      if b != c { OthersKept(d, e, hash, c, b); }
    }
    forall i | 0 <= i < |e.issues| ensures IssueOk(e, i) {
      assert IssueOk(d, i);
    }
  }

  lemma CallKeepsInv(d: Desk, hash: string -> int, c: nat, org: nat, fingerprint: string, e: Desk)
    requires Inv(d, hash) && c !in d.callers && e == d.(callers := d.callers[c := Caller(org, fingerprint, Calling)])
    ensures Inv(e, hash)
  {
    forall i | 0 <= i < |e.issues| ensures IssueOk(e, i) && e.issues[i].creator != c { assert IssueOk(d, i); }
    forall b | b in e.callers ensures CallerOk(e, hash, b) {
      if b != c { assert CallerOk(d, hash, b); }
    }
  }

  lemma ReadKeepsInv(d: Desk, hash: string -> int, c: nat, e: Desk)
    requires Inv(d, hash) && (At(d, c, Calling) || At(d, c, Locked))
    requires e == Next(d, hash, if At(d, c, Calling) then FastRead(c) else Recheck(c))
    ensures Inv(e, hash)
  {
    assert CallerOk(d, hash, c);
    var row := Find(d.rows, d.callers[c].org, d.callers[c].fingerprint);
    if row.Some? { assert row.value in e.rows; }
    MoveKeepsInv(d, hash, c, e);
  }

  /** The remote call made the issue, or failed having made it. */
  lemma MadeKeepsInv(d: Desk, hash: string -> int, c: nat, key: string, e: Desk)
    requires Inv(d, hash) && At(d, c, Creating) && e == WithIssue(Move(d, c, Created(key)), c, key)
    ensures Inv(e, hash)
  {
    assert CallerOk(d, hash, c);
    forall b | b in e.callers ensures CallerOk(e, hash, b) {
      if b != c { OthersKept(d, e, hash, c, b); }
    }
    forall i | 0 <= i < |e.issues| ensures IssueOk(e, i) {
      if i < |d.issues| {
        assert d.issues[i].creator != c;
        IssueKept(d, e, hash, c, i);
      }
    }
  }

  /** A failed call that made the issue is as if it had succeeded and its transaction then rolled back. */
  lemma MadeButFailedIs(d: Desk, hash: string -> int, c: nat, key: string)
    requires At(d, c, Creating)
    ensures RolledBack(WithIssue(d, c, key), hash, c)
            == RolledBack(WithIssue(Move(d, c, Created(key)), c, key), hash, c)
  {
  }

  lemma CommitOthers(d: Desk, hash: string -> int, c: nat, answered: bool, e: Desk, b: nat)
    requires Inv(d, hash) && c in d.callers && d.callers[c].phase.Inserted? && e == Next(d, hash, Commit(c, answered))
    requires b in d.callers && b != c
    ensures CallerOk(e, hash, b)
  {
    assert CallerOk(d, hash, b) && CallerOk(d, hash, c);
    if Holding(d.callers[b].phase) && LockKey(hash, d.callers[b]) == LockKey(hash, d.callers[c]) { SoleHolder(d, hash, b, c); }
    if d.callers[b].phase.Returned? {
      var row :| row in d.rows && row.org == d.callers[b].org && row.fingerprint == d.callers[b].fingerprint
                 && row.key == d.callers[b].phase.key;
      assert row in e.rows;
    }
  }

  lemma CommitRows(rows: seq<Row>, row: Row)
    requires OneRowEach(rows) && forall r :: r in rows ==> r.org != row.org || r.fingerprint != row.fingerprint
    ensures OneRowEach(rows + [row])
  {
  }

  lemma CommitKeepsInv(d: Desk, hash: string -> int, c: nat, answered: bool, e: Desk)
    requires Inv(d, hash) && c in d.callers && d.callers[c].phase.Inserted? && e == Next(d, hash, Commit(c, answered))
    ensures Inv(e, hash)
  {
    assert CallerOk(d, hash, c);
    var caller := d.callers[c];
    var row := Row(caller.org, caller.fingerprint, caller.phase.key, c);
    CommitRows(d.rows, row);
    assert e.rows[|d.rows|] == row && row in e.rows;
    forall b | b in e.callers ensures CallerOk(e, hash, b) {
      if b != c { CommitOthers(d, hash, c, answered, e, b); }
    }
    forall i | 0 <= i < |e.issues| ensures IssueOk(e, i) {
      assert IssueOk(d, i);
      assert forall r :: r in d.rows ==> r in e.rows;
    }
  }

  lemma StepKeepsInv(d: Desk, hash: string -> int, step: Step, e: Desk)
    requires Inv(d, hash) && e == Next(d, hash, step)
    ensures Inv(e, hash)
  {
    match step
    case Call(c, org, fingerprint) => if c !in d.callers { CallKeepsInv(d, hash, c, org, fingerprint, e); }
    case FastRead(c) => if At(d, c, Calling) { ReadKeepsInv(d, hash, c, e); }
    case Lock(c) =>
      if At(d, c, Wanting) && LockKey(hash, d.callers[c]) !in d.locks {
        assert CallerOk(d, hash, c);
        MoveKeepsInv(d, hash, c, e);
      }
    case Recheck(c) => if At(d, c, Locked) { ReadKeepsInv(d, hash, c, e); }
    case Create(c, remote) => if At(d, c, Creating) { CreateKeepsInv(d, hash, c, remote, e); }
    case Insert(c) =>
      if c in d.callers && d.callers[c].phase.Created? {
        assert CallerOk(d, hash, c);
        MoveKeepsInv(d, hash, c, e);
      }
    case Commit(c, answered) =>
      if c in d.callers && d.callers[c].phase.Inserted? { CommitKeepsInv(d, hash, c, answered, e); }
    case Fail(c) => if c in d.callers && !d.callers[c].phase.Returned? && !d.callers[c].phase.Failed? { RollbackKeepsInv(d, hash, c, e); }
  }

  lemma CreateKeepsInv(d: Desk, hash: string -> int, c: nat, remote: Remote, e: Desk)
    requires Inv(d, hash) && At(d, c, Creating) && e == Next(d, hash, Create(c, remote))
    ensures Inv(e, hash)
  {
    match remote
    case NotMade => RollbackKeepsInv(d, hash, c, e);
    case Made(key) => MadeKeepsInv(d, hash, c, key, e);
    case MadeButFailed(key) =>
      var made := WithIssue(Move(d, c, Created(key)), c, key);
      MadeKeepsInv(d, hash, c, key, made);
      MadeButFailedIs(d, hash, c, key);
      RollbackKeepsInv(made, hash, c, e);
  }

  // ---------------------------------------------------------------- every interleaving

  predicate Fresh(d: Desk) {
    OneRowEach(d.rows) && d.locks == map[] && d.callers == map[] && d.issues == []
  }

  lemma {:induction false} RunKeepsInv(d: Desk, hash: string -> int, steps: seq<Step>)
    requires Fresh(d)
    ensures Inv(Run(d, hash, steps), hash)
  {
    if steps != [] {
      RunKeepsInv(d, hash, steps[..|steps| - 1]);
      StepKeepsInv(Run(d, hash, steps[..|steps| - 1]), hash, steps[|steps| - 1], Run(d, hash, steps));
    }
  }

  /** Any callers, any interleaving, any hash: one recorded issue per failure at most, and whoever returns a key
      returns the recorded one. */
  lemma OneRecordedIssue(d: Desk, hash: string -> int, steps: seq<Step>, a: nat, b: nat)
    requires Fresh(d)
    requires var e := Run(d, hash, steps);
             a in e.callers && b in e.callers && SameFailure(e.callers[a], e.callers[b])
             && e.callers[a].phase.Returned? && e.callers[b].phase.Returned?
    ensures var e := Run(d, hash, steps);
            && OneRowEach(e.rows)
            && Recorded(e.rows, e.callers[a], e.callers[a].phase.key)
            && e.callers[a].phase.key == e.callers[b].phase.key
  {
    RunKeepsInv(d, hash, steps);
    var e := Run(d, hash, steps);
    assert CallerOk(e, hash, a) && CallerOk(e, hash, b);
    OneKey(e.rows, e.callers[a], e.callers[b], e.callers[a].phase.key, e.callers[b].phase.key);
  }

  lemma OneKey(rows: seq<Row>, a: Caller, b: Caller, k: string, l: string)
    requires OneRowEach(rows) && SameFailure(a, b) && Recorded(rows, a, k) && Recorded(rows, b, l)
    ensures k == l
  {
    var r :| r in rows && r.org == a.org && r.fingerprint == a.fingerprint && r.key == k;
    var s :| s in rows && s.org == b.org && s.fingerprint == b.fingerprint && s.key == l;
    SameRow(rows, r, s);
  }

  /** The unique index is never needed: a caller about to insert finds no row in its way. */
  lemma InsertNeverClashes(d: Desk, hash: string -> int, steps: seq<Step>, c: nat)
    requires Fresh(d)
    requires var e := Run(d, hash, steps); c in e.callers && e.callers[c].phase.Created?
    ensures var e := Run(d, hash, steps); Find(e.rows, e.callers[c].org, e.callers[c].fingerprint).None?
  {
    RunKeepsInv(d, hash, steps);
    assert CallerOk(Run(d, hash, steps), hash, c);
  }

  lemma SameRow(rows: seq<Row>, r: Row, s: Row)
    requires OneRowEach(rows) && r in rows && s in rows && r.org == s.org && r.fingerprint == s.fingerprint
    ensures r == s
  {
  }

  /** Of all the issues ever created in Jira for one failure, at most one is not lost: a second one is created only
      after every earlier creator has rolled back. */
  lemma OneLiveIssue(d: Desk, hash: string -> int, steps: seq<Step>, i: nat, j: nat)
    requires Fresh(d)
    requires var e := Run(d, hash, steps);
             i < |e.issues| && j < |e.issues| && !e.issues[i].lost && !e.issues[j].lost
             && e.issues[i].org == e.issues[j].org && e.issues[i].fingerprint == e.issues[j].fingerprint
    ensures i == j
  {
    RunKeepsInv(d, hash, steps);
    var e := Run(d, hash, steps);
    SameLive(e, hash, i, j);
  }

  lemma SameLive(e: Desk, hash: string -> int, i: nat, j: nat)
    requires Inv(e, hash) && i < |e.issues| && j < |e.issues| && !e.issues[i].lost && !e.issues[j].lost
    requires e.issues[i].org == e.issues[j].org && e.issues[i].fingerprint == e.issues[j].fingerprint
    ensures i == j
  {
    assert IssueOk(e, i) && IssueOk(e, j);
    var a, b := e.issues[i].creator, e.issues[j].creator;
    assert CallerOk(e, hash, a) && CallerOk(e, hash, b);
    if RecordedBy(e.rows, e.issues[i]) && RecordedBy(e.rows, e.issues[j]) {
      SameRow(e.rows, Row(e.issues[i].org, e.issues[i].fingerprint, e.issues[i].key, a),
              Row(e.issues[j].org, e.issues[j].fingerprint, e.issues[j].key, b));
    } else if !RecordedBy(e.rows, e.issues[i]) && !RecordedBy(e.rows, e.issues[j]) {
      SoleHolder(e, hash, a, b);
    }
  }

  /** In particular a caller reaches the remote call only when every issue made so far for its failure is lost. */
  lemma CreatesOnlyAfterRollback(d: Desk, hash: string -> int, steps: seq<Step>, c: nat, i: nat)
    requires Fresh(d)
    requires var e := Run(d, hash, steps);
             At(e, c, Creating) && i < |e.issues|
             && e.issues[i].org == e.callers[c].org && e.issues[i].fingerprint == e.callers[c].fingerprint
    ensures Run(d, hash, steps).issues[i].lost
  {
    RunKeepsInv(d, hash, steps);
    var e := Run(d, hash, steps);
    assert IssueOk(e, i) && CallerOk(e, hash, c);
    var a := e.issues[i].creator;
    if !e.issues[i].lost && !RecordedBy(e.rows, e.issues[i]) { SoleHolder(e, hash, a, c); }
  }

  // ---------------------------------------------------------------- one caller, from its first read to its end

  /** A lone caller at one point of its way. */
  function Stage(rows: seq<Row>, issues: seq<Issue>, hash: string -> int, c: nat, caller: Caller): Desk {
    Desk(rows, if Holding(caller.phase) then map[LockKey(hash, caller) := c] else map[], map[c := caller], issues)
  }

  /** The caller as it stands at another point. */
  function As(caller: Caller, phase: Phase): Caller { caller.(phase := phase) }

  /** The recorded issues and those in Jira, with no other caller about. */
  class IssueTable {
    var rows: seq<Row>
    var issues: seq<Issue>

    ghost function Alone(hash: string -> int, c: nat, caller: Caller): Desk
      reads this
    {
      Stage(rows, issues, hash, c, caller)
    }

    /** A statement throws: ROLLBACK, and an issue the caller had created is lost. */
    method Break(ghost hash: string -> int, c: nat, ghost caller: Caller, ghost start: Desk, ghost before: seq<Step>)
      returns (ghost steps: seq<Step>)
      requires Run(start, hash, before) == Alone(hash, c, caller) && !caller.phase.Returned? && !caller.phase.Failed?
      modifies `issues
      ensures issues == Lost(old(issues), c)
      ensures Run(start, hash, steps) == Alone(hash, c, As(caller, Failed))
    {
      steps := before + [Fail(c)];
      RunMore(start, hash, before, Fail(c));
      StageFails(rows, issues, hash, c, caller, Run(start, hash, before));
      issues := Lost(issues, c);
    }

    /** The remote call. */
    method Create(ghost hash: string -> int, c: nat, org: nat, fingerprint: string, remote: Remote, ghost start: Desk,
                  ghost before: seq<Step>)
      returns (ghost steps: seq<Step>)
      requires Run(start, hash, before) == Alone(hash, c, Caller(org, fingerprint, Creating))
      modifies `issues
      ensures issues == match remote
                        case NotMade => Lost(old(issues), c)
                        case MadeButFailed(key) => Lost(old(issues) + [Issue(org, fingerprint, key, c, false)], c)
                        case Made(key) => old(issues) + [Issue(org, fingerprint, key, c, false)]
      ensures Run(start, hash, steps)
              == Alone(hash, c, Caller(org, fingerprint, if remote.Made? then Created(remote.key) else Failed))
    {
      steps := before + [Step.Create(c, remote)];
      RunMore(start, hash, before, Step.Create(c, remote));
      StageCreates(rows, issues, hash, c, Caller(org, fingerprint, Creating), remote, Run(start, hash, before));
      match remote {
        case NotMade => issues := Lost(issues, c);
        case MadeButFailed(key) => issues := Lost(issues + [Issue(org, fingerprint, key, c, false)], c);
        case Made(key) => issues := issues + [Issue(org, fingerprint, key, c, false)];
      }
    }

    /** The key of the failure's issue: read, or created and recorded. `done` says how many of the database's
        statements succeed before one throws: the first read, the lock, the second read, the insert and the commit;
        at five the row is recorded but the answer is lost, and from six on all is well. */
    method CreateIssueForFingerprint(ghost hash: string -> int, c: nat, org: nat, fingerprint: string, remote: Remote, done: nat)
      returns (key: Option<string>, ghost steps: seq<Step>)
      modifies this
      ensures Run(old(Desk(rows, map[], map[], issues)), hash, steps)
              == Alone(hash, c, Caller(org, fingerprint, if key.Some? then Returned(key.value) else Failed))
      ensures var was := Find(old(rows), org, fingerprint);
              var made := was.None? && done >= 3 && !remote.NotMade?;
              var recorded := made && remote.Made? && done >= 5;
              var grown := old(issues) + if made then [Issue(org, fingerprint, remote.key, c, false)] else [];
              && key == (if was.Some? && done >= 1 then Some(was.value.key)
                         else if recorded && done >= 6 then Some(remote.key) else None)
              && rows == old(rows) + (if recorded then [Row(org, fingerprint, remote.key, c)] else [])
              && issues == (if recorded || (was.Some? && done >= 1) then grown else Lost(grown, c))
    {
      ghost var start := Desk(rows, map[], map[], issues);
      ghost var caller := Caller(org, fingerprint, Calling);
      key := None;
      steps := [] + [Call(c, org, fingerprint)];
      RunMore(start, hash, [], Call(c, org, fingerprint));
      if done == 0 { steps := Break(hash, c, caller, start, steps); return; }
      var existing := Find(rows, org, fingerprint);
      RunMore(start, hash, steps, FastRead(c));
      StageReads(rows, issues, hash, c, caller, Run(start, hash, steps));
      steps := steps + [FastRead(c)];
      if existing.Some? { return Some(existing.value.key), steps; }
      if done == 1 { steps := Break(hash, c, As(caller, Wanting), start, steps); return; }
      // BEGIN; nobody else holds the lock, and no row has appeared.
      RunMore(start, hash, steps, Lock(c));
      StageLocks(rows, issues, hash, c, As(caller, Wanting), Run(start, hash, steps));
      steps := steps + [Lock(c)];
      if done == 2 { steps := Break(hash, c, As(caller, Locked), start, steps); return; }
      RunMore(start, hash, steps, Recheck(c));
      StageRechecks(rows, issues, hash, c, As(caller, Locked), Run(start, hash, steps));
      steps := steps + [Recheck(c)];
      steps := Create(hash, c, org, fingerprint, remote, start, steps);
      if !remote.Made? { return; }
      if done == 3 { steps := Break(hash, c, As(caller, Created(remote.key)), start, steps); return; }
      key, steps := Record(hash, c, org, fingerprint, remote.key, done, start, steps);
    }

    /** INSERT and COMMIT. */
    method Record(ghost hash: string -> int, c: nat, org: nat, fingerprint: string, made: string, done: nat, ghost start: Desk,
                  ghost before: seq<Step>)
      returns (key: Option<string>, ghost steps: seq<Step>)
      requires Run(start, hash, before) == Alone(hash, c, Caller(org, fingerprint, Created(made)))
      requires Find(rows, org, fingerprint).None? && done >= 4
      modifies this
      ensures key == if done >= 6 then Some(made) else None
      ensures rows == old(rows) + if done >= 5 then [Row(org, fingerprint, made, c)] else []
      ensures issues == if done >= 5 then old(issues) else Lost(old(issues), c)
      ensures Run(start, hash, steps) == Alone(hash, c, Caller(org, fingerprint, if done >= 6 then Returned(made) else Failed))
    {
      ghost var caller := Caller(org, fingerprint, Created(made));
      RunMore(start, hash, before, Insert(c));
      StageInserts(rows, issues, hash, c, caller, Run(start, hash, before));
      steps := before + [Insert(c)];
      if done == 4 {
        steps := Break(hash, c, As(caller, Inserted(made)), start, steps);
        return None, steps;
      }
      RunMore(start, hash, steps, Commit(c, done >= 6));
      StageCommits(rows, issues, hash, c, As(caller, Inserted(made)), done >= 6, Run(start, hash, steps));
      steps := steps + [Commit(c, done >= 6)];
      rows := rows + [Row(org, fingerprint, made, c)];
      key := if done >= 6 then Some(made) else None;
    }
  }

  lemma RunMore(d: Desk, hash: string -> int, steps: seq<Step>, step: Step)
    ensures Run(d, hash, steps + [step]) == Next(Run(d, hash, steps), hash, step)
  {
    assert (steps + [step])[..|steps|] == steps;
  }

  lemma StageFails(rows: seq<Row>, issues: seq<Issue>, hash: string -> int, c: nat, caller: Caller, d: Desk)
    requires d == Stage(rows, issues, hash, c, caller) && !caller.phase.Returned? && !caller.phase.Failed?
    ensures Next(d, hash, Fail(c)) == Stage(rows, Lost(issues, c), hash, c, As(caller, Failed))
  {
  }

  lemma StageReads(rows: seq<Row>, issues: seq<Issue>, hash: string -> int, c: nat, caller: Caller, d: Desk)
    requires d == Stage(rows, issues, hash, c, caller) && caller.phase.Calling?
    ensures var row := Find(rows, caller.org, caller.fingerprint);
            Next(d, hash, FastRead(c)) ==
            Stage(rows, issues, hash, c, As(caller, if row.Some? then Returned(row.value.key) else Wanting))
  {
  }

  lemma StageLocks(rows: seq<Row>, issues: seq<Issue>, hash: string -> int, c: nat, caller: Caller, d: Desk)
    requires d == Stage(rows, issues, hash, c, caller) && caller.phase.Wanting?
    ensures Next(d, hash, Lock(c)) == Stage(rows, issues, hash, c, As(caller, Locked))
  {
  }

  lemma StageRechecks(rows: seq<Row>, issues: seq<Issue>, hash: string -> int, c: nat, caller: Caller, d: Desk)
    requires d == Stage(rows, issues, hash, c, caller) && caller.phase.Locked?
    requires Find(rows, caller.org, caller.fingerprint).None?
    ensures Next(d, hash, Recheck(c)) == Stage(rows, issues, hash, c, As(caller, Creating))
  {
  }

  lemma StageCreates(rows: seq<Row>, issues: seq<Issue>, hash: string -> int, c: nat, caller: Caller, remote: Remote, d: Desk)
    requires d == Stage(rows, issues, hash, c, caller) && caller.phase.Creating?
    ensures var made := if remote.NotMade? then issues
                        else issues + [Issue(caller.org, caller.fingerprint, remote.key, c, false)];
            Next(d, hash, Step.Create(c, remote)) ==
            if remote.Made? then Stage(rows, made, hash, c, As(caller, Created(remote.key)))
            else Stage(rows, Lost(made, c), hash, c, As(caller, Failed))
  {
  }

  lemma StageInserts(rows: seq<Row>, issues: seq<Issue>, hash: string -> int, c: nat, caller: Caller, d: Desk)
    requires d == Stage(rows, issues, hash, c, caller) && caller.phase.Created?
    requires Find(rows, caller.org, caller.fingerprint).None?
    ensures Next(d, hash, Insert(c)) == Stage(rows, issues, hash, c, As(caller, Inserted(caller.phase.key)))
  {
  }

  lemma StageCommits(rows: seq<Row>, issues: seq<Issue>, hash: string -> int, c: nat, caller: Caller, answered: bool, d: Desk)
    requires d == Stage(rows, issues, hash, c, caller) && caller.phase.Inserted?
    ensures var row := Row(caller.org, caller.fingerprint, caller.phase.key, c);
            Next(d, hash, Commit(c, answered)) ==
            Stage(rows + [row], issues, hash, c, As(caller, if answered then Returned(caller.phase.key) else Failed))
  {
  }

  // ---------------------------------------------------------------- which failures get a ticket

  /** A failed test with the spec it is in. */
  datatype Failure = Failure(spec: Normalized.Spec, test: Normalized.Test)

  function FailuresOf(spec: Normalized.Spec, tests: seq<Normalized.Test>): seq<Failure> {
    if tests == [] then []
    else
      FailuresOf(spec, tests[..|tests| - 1])
      + (if tests[|tests| - 1].status.Failed? then [Failure(spec, tests[|tests| - 1])] else [])
  }

  function Failures(specs: seq<Normalized.Spec>): seq<Failure> {
    if specs == [] then []
    else Failures(specs[..|specs| - 1]) + FailuresOf(specs[|specs| - 1], specs[|specs| - 1].tests)
  }

  lemma {:induction false} CountFailures(spec: Normalized.Spec, tests: seq<Normalized.Test>)
    ensures |FailuresOf(spec, tests)| == Normalized.CountStatus(tests, Normalized.Failed)
  {
    if tests != [] { CountFailures(spec, tests[..|tests| - 1]); }
  }

  lemma {:induction false} FailuresCounted(specs: seq<Normalized.Spec>)
    requires Normalized.SpecsTally(specs)
    ensures |Failures(specs)| == Normalized.SumCounts(specs).failed
  {
    if specs != [] {
      FailuresCounted(specs[..|specs| - 1]);
      CountFailures(specs[|specs| - 1], specs[|specs| - 1].tests);
    }
  }

  /** A test's place in a run: its spec's, and its own within the spec. */
  datatype Place = Place(spec: nat, test: nat)

  predicate Before(a: Place, b: Place) { a.spec < b.spec || (a.spec == b.spec && a.test < b.test) }

  predicate FailedAt(specs: seq<Normalized.Spec>, at: Place) {
    at.spec < |specs| && at.test < |specs[at.spec].tests| && specs[at.spec].tests[at.test].status == Normalized.Failed
  }

  /** The places are those of the failed tests, each once and in the order of the run. */
  ghost predicate FailedPlaces(specs: seq<Normalized.Spec>, places: seq<Place>) {
    && (forall k :: 0 <= k < |places| ==> FailedAt(specs, places[k]))
    && (forall at :: FailedAt(specs, at) ==> at in places)
    && (forall k, l :: 0 <= k < l < |places| ==> Before(places[k], places[l]))
  }

  /** Each failure is the test at its place with the spec it is in. */
  predicate FoundAt(failures: seq<Failure>, specs: seq<Normalized.Spec>, places: seq<Place>) {
    && |failures| == |places|
    && forall k :: 0 <= k < |places| ==>
         && places[k].spec < |specs| && places[k].test < |specs[places[k].spec].tests|
         && failures[k].spec == specs[places[k].spec] && failures[k].test == specs[places[k].spec].tests[places[k].test]
  }

  /** The places of the failed among the first n tests of spec s. */
  predicate PlacesIn(spec: Normalized.Spec, s: nat, n: nat, places: seq<Place>)
    requires n <= |spec.tests|
  {
    && (forall k :: 0 <= k < |places| ==>
          places[k].spec == s && places[k].test < n && spec.tests[places[k].test].status == Normalized.Failed)
    && (forall j: nat :: j < n && spec.tests[j].status == Normalized.Failed ==> Place(s, j) in places)
    && (forall k, l :: 0 <= k < l < |places| ==> places[k].test < places[l].test)
  }

  lemma {:induction false} FailuresOfInOrder(spec: Normalized.Spec, s: nat, n: nat) returns (places: seq<Place>)
    requires n <= |spec.tests|
    ensures PlacesIn(spec, s, n, places) && |places| == |FailuresOf(spec, spec.tests[..n])|
    ensures forall k :: 0 <= k < |places| ==>
              FailuresOf(spec, spec.tests[..n])[k] == Failure(spec, spec.tests[places[k].test])
  {
    places := [];
    if n != 0 {
      assert spec.tests[..n][..n - 1] == spec.tests[..n - 1];
      places := FailuresOfInOrder(spec, s, n - 1);
      if spec.tests[n - 1].status.Failed? { places := places + [Place(s, n - 1)]; }
    }
  }

  lemma PlacesAppend(front: seq<Normalized.Spec>, last: Normalized.Spec, before: seq<Place>, more: seq<Place>)
    requires FailedPlaces(front, before) && PlacesIn(last, |front|, |last.tests|, more)
    ensures FailedPlaces(front + [last], before + more)
  {
    var specs, places := front + [last], before + more;
    forall at | FailedAt(specs, at) ensures at in places {
      if at.spec < |front| { assert FailedAt(front, at); } else { assert Place(|front|, at.test) in more; }
    }
    forall k | 0 <= k < |places| ensures FailedAt(specs, places[k]) {
      if k < |before| { assert FailedAt(front, before[k]); }
    }
    forall k, l | 0 <= k < l < |places| ensures Before(places[k], places[l]) {
      if k < |before| { assert FailedAt(front, before[k]); }
    }
  }

  /** The failures of a run are its failed tests, each once, in the order of the run, with the spec each is in. */
  lemma {:induction false} FailuresInOrder(specs: seq<Normalized.Spec>) returns (places: seq<Place>)
    ensures FailedPlaces(specs, places) && FoundAt(Failures(specs), specs, places)
  {
    places := [];
    if specs != [] {
      var front, last := specs[..|specs| - 1], specs[|specs| - 1];
      assert specs == front + [last] && last.tests[..|last.tests|] == last.tests;
      var before := FailuresInOrder(front);
      var more := FailuresOfInOrder(last, |front|, |last.tests|);
      PlacesAppend(front, last, before, more);
      places := before + more;
    }
  }

  /** The selected failures are the first failed tests of the run, up to the cap, in its order. */
  lemma SelectedAreFirst(run: Normalized.Run, cap: nat) returns (places: seq<Place>)
    ensures FailedPlaces(run.specs, places)
    ensures FoundAt(SelectFailures(run, cap).0, run.specs, places[..if cap <= |places| then cap else |places|])
    ensures SelectFailures(run, cap).1 == if cap <= |places| then |places| - cap else 0
  {
    places := FailuresInOrder(run.specs);
  }

  function Least(a: nat, b: nat): nat { if a <= b then a else b }

  /** The first failures of the run up to the cap, and how many are left out. */
  function SelectFailures(run: Normalized.Run, cap: nat): (r: (seq<Failure>, nat))
    ensures r.0 <= Failures(run.specs) && |r.0| == Least(cap, |Failures(run.specs)|)
    ensures |r.0| + r.1 == |Failures(run.specs)|
  {
    var failed := Failures(run.specs);
    (failed[..Least(cap, |failed|)], if |failed| > cap then |failed| - cap else 0)
  }

  /** For a normalized run, the selected and the dropped together are the run's own failed counter. */
  lemma NoFailureLost(run: Normalized.Run, cap: nat, tests: multiset<Normalized.Test>)
    requires Normalized.Conserves(run, tests)
    ensures |SelectFailures(run, cap).0| + SelectFailures(run, cap).1 == run.counts.failed
  {
    FailuresCounted(run.specs);
  }
}
