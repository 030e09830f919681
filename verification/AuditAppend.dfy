// Appending to the audit chain: many transactions of many organisations, interleaved step by
// step. A transaction-scoped advisory lock per organisation serialises them; ids come from one
// global sequence that never goes back.
module AuditAppend {
  import opened Text
  import Json
  import opened AuditChain
  import opened AuditTable
  import opened AuditVerify

  /** The arguments of one append, and the transaction's start time, which becomes created_at. */
  datatype Entry = Entry(
    org: int,
    userId: Option<int>,
    action: string,
    targetType: Option<string>,
    targetId: Option<string>,
    detail: Json.Stored,
    createdAt: int)

  /** How far a transaction has come. */
  datatype Phase =
    | Begun
    | Locked
    | HeadRead(prev: string)
    | Inserted(row: Row)
    | HashSet(row: Row)
    | Committed // visible to others; the lock is still held

  datatype Tx = Tx(entry: Entry, phase: Phase)

  /** The committed table in commit order, the id sequence, the advisory locks and the open transactions. */
  datatype Db = Db(table: seq<Row>, nextId: nat, locks: map<int, nat>, txs: map<nat, Tx>)

  datatype Step =
    | Begin(tx: nat, entry: Entry)
    | Lock(tx: nat)
    | ReadHead(tx: nat)
    | Insert(tx: nat)
    | SetHash(tx: nat)
    | Commit(tx: nat)
    | Release(tx: nat)
    | Rollback(tx: nat)

  /** SELECT entry_hash … WHERE entry_hash IS NOT NULL ORDER BY id DESC LIMIT 1, or the genesis value. */
  function HeadHash(rows: seq<Row>): string {
    if rows == [] then GENESIS_HASH
    else if rows[|rows| - 1].entryHash.Some? then rows[|rows| - 1].entryHash.value
    else HeadHash(rows[..|rows| - 1])
  }

  function NewRow(entry: Entry, id: nat, prev: string): Row {
    var fields := AuditChainFields(id, entry.org, entry.userId, entry.action, entry.targetType,
                                   entry.targetId, entry.detail, entry.createdAt);
    Row(ContentOf(fields), Some(prev), None)
  }

  /** The row says what the entry does, column by column. */
  predicate Records(row: Row, entry: Entry) {
    && row.content.orgId == entry.org && row.content.userId == entry.userId && row.content.action == entry.action
    && row.content.targetType == entry.targetType && row.content.targetId == entry.targetId
    && row.content.detailText == Json.CanonicalJson(entry.detail) && row.content.millis == entry.createdAt / 1000
  }

  function WithHash(h: Hasher, row: Row): Row {
    row.(entryHash := Some(h(PrevHash(row), row.content)))
  }

  function Advance(db: Db, tx: nat, phase: Phase): Db
    requires tx in db.txs
  {
    db.(txs := db.txs[tx := db.txs[tx].(phase := phase)])
  }

  /** The transaction ends and gives up its lock, if it holds one. */
  function End(db: Db, tx: nat): Db
    requires tx in db.txs
  {
    var org := db.txs[tx].entry.org;
    db.(txs := db.txs - {tx},
        locks := if org in db.locks && db.locks[org] == tx then db.locks - {org} else db.locks)
  }

  /** One step of one transaction. A step whose turn has not come changes nothing; in particular a
      transaction asking for a lock that is held waits. */
  function Next(h: Hasher, db: Db, step: Step): Db {
    var tx := step.tx;
    if step.Begin? then
      if tx in db.txs then db else db.(txs := db.txs[tx := Tx(step.entry, Begun)])
    else if tx !in db.txs then db
    else
      var entry, phase := db.txs[tx].entry, db.txs[tx].phase;
      match step
      case Lock(_) =>
        if phase.Begun? && entry.org !in db.locks
        then Advance(db, tx, Locked).(locks := db.locks[entry.org := tx]) else db
      case ReadHead(_) =>
        if phase.Locked? then Advance(db, tx, HeadRead(HeadHash(OrgRows(db.table, entry.org)))) else db
      case Insert(_) =>
        if phase.HeadRead?
        then Advance(db, tx, Inserted(NewRow(entry, db.nextId, phase.prev))).(nextId := db.nextId + 1) else db
      case SetHash(_) =>
        if phase.Inserted? then Advance(db, tx, HashSet(WithHash(h, phase.row))) else db
      case Commit(_) =>
        if phase.HashSet? then Advance(db, tx, Committed).(table := db.table + [phase.row]) else db
      case Release(_) =>
        if phase.Committed? then End(db, tx) else db
      case Rollback(_) =>
        if phase.Committed? then db else End(db, tx)
  }

  function Run(h: Hasher, db: Db, steps: seq<Step>): Db {
    if steps == [] then db else Next(h, Run(h, db, steps[..|steps| - 1]), steps[|steps| - 1])
  }

  // ---------------------------------------------------------------- the invariant

  /** The committed rows of one organisation, in commit order. */
  function Log(table: seq<Row>, org: int): seq<Row> {
    if table == [] then []
    else if table[0].content.orgId == org then [table[0]] + Log(table[1..], org)
    else Log(table[1..], org)
  }

  /** Rows older than the chain have no hash at all. */
  predicate LegacyNull(log: seq<Row>) {
    forall i :: 0 <= i < LegacyRows(log) ==> log[i].entryHash.None?
  }

  predicate Below(log: seq<Row>, id: nat) {
    forall i :: 0 <= i < |log| ==> log[i].content.id < id
  }

  /** One organisation's log is in id order, below the sequence, and one intact chain. */
  ghost predicate LogInv(h: Hasher, db: Db, org: int) {
    var log := Log(db.table, org);
    ById(log) && Below(log, db.nextId) && LegacyNull(log) && Intact(h, log)
  }

  /** `row` would extend `log`: it links to the head and its id is above all of the log's. */
  predicate Extends(log: seq<Row>, org: int, row: Row) {
    && row.content.orgId == org
    && row.prevHash == Some(HeadHash(log))
    && Below(log, row.content.id)
  }

  /** What an open transaction knows: only the lock holder has gone past Begun, and what it has read
      and written is still true of its organisation's log. */
  ghost predicate TxInv(h: Hasher, db: Db, tx: nat)
    requires tx in db.txs
  {
    var org, phase := db.txs[tx].entry.org, db.txs[tx].phase;
    var log := Log(db.table, org);
    && (!phase.Begun? ==> org in db.locks && db.locks[org] == tx)
    && (phase.HeadRead? ==> phase.prev == HeadHash(log))
    && (phase.Inserted? || phase.HashSet? ==> Extends(log, org, phase.row) && phase.row.content.id < db.nextId)
    && (phase.Inserted? || phase.HashSet? ==>
          phase.row.content == NewRow(db.txs[tx].entry, phase.row.content.id, HeadHash(log)).content)
    && (phase.HashSet? ==> phase.row.entryHash == Some(h(PrevHash(phase.row), phase.row.content)))
  }

  ghost predicate Inv(h: Hasher, db: Db) {
    && (forall org :: LogInv(h, db, org))
    && (forall tx :: tx in db.txs ==> TxInv(h, db, tx))
  }

  // ---------------------------------------------------------------- logs and heads

  lemma {:induction false} LogAppend(table: seq<Row>, row: Row, org: int)
    ensures Log(table + [row], org) ==
            if row.content.orgId == org then Log(table, org) + [row] else Log(table, org)
  {
    if table == [] {
      assert table + [row] == [row];
    } else {
      LogAppend(table[1..], row, org);
      assert (table + [row])[1..] == table[1..] + [row];
    }
  }

  /** Commit order is id order, so sorting a log by id leaves it as it is. */
  lemma {:induction false} OrgRowsIsLog(table: seq<Row>, org: int)
    requires ById(Log(table, org))
    ensures OrgRows(table, org) == Log(table, org)
  {
    if table != [] {
      var rest := Log(table[1..], org);
      if table[0].content.orgId == org { assert Log(table, org)[1..] == rest; }
      OrgRowsIsLog(table[1..], org);
      if table[0].content.orgId == org && rest != [] {
        assert Log(table, org)[0].content.id < Log(table, org)[1].content.id;
      }
    }
  }

  lemma {:induction false} HeadOfLegacy(log: seq<Row>)
    requires forall i :: 0 <= i < |log| ==> log[i].entryHash.None?
    ensures HeadHash(log) == GENESIS_HASH
  {
    if log != [] { HeadOfLegacy(log[..|log| - 1]); }
  }

  /** The head that a writer reads is the link that the verifier expects next. */
  lemma HeadIsExpected(h: Hasher, log: seq<Row>)
    requires Intact(h, log) && LegacyNull(log)
    ensures HeadHash(log) == WalkOf(log).expectedPrev
  {
    if LegacyRows(log) == |log| {
      HeadOfLegacy(log);
    } else {
      assert Linked(h, log, |log| - 1);
    }
  }

  /** The new row is linked, and the rows before it stay linked. */
  lemma AppendLinked(h: Hasher, log: seq<Row>, row: Row, longer: seq<Row>, i: nat)
    requires Intact(h, log) && LegacyNull(log) && longer == log + [row] && LegacyRows(longer) == LegacyRows(log) <= i < |longer|
    requires HasHash(row) && row.prevHash == Some(HeadHash(log)) && row.entryHash.value == h(PrevHash(row), row.content)
    ensures Linked(h, longer, i)
  {
    HeadIsExpected(h, log);
    if i < |log| { assert Linked(h, log, i); }
    if LegacyRows(log) < i { assert Linked(h, log, i - 1); }
  }

  lemma AppendOrdered(log: seq<Row>, row: Row, longer: seq<Row>)
    requires ById(log) && Below(log, row.content.id) && longer == log + [row]
    ensures ById(longer)
  {
  }

  /** A row written under the lock extends the chain. */
  lemma AppendIntact(h: Hasher, log: seq<Row>, org: int, row: Row)
    requires Binding(h) && Intact(h, log) && LegacyNull(log) && ById(log) && Extends(log, org, row)
    requires row.entryHash == Some(h(PrevHash(row), row.content))
    ensures Intact(h, log + [row]) && LegacyNull(log + [row]) && ById(log + [row])
  {
    var longer := log + [row];
    AppendOrdered(log, row, longer);
    LegacyIs(longer, LegacyRows(log));
    forall i | LegacyRows(longer) <= i < |longer| ensures Linked(h, longer, i) {
      AppendLinked(h, log, row, longer, i);
    }
  }

  // ---------------------------------------------------------------- every step keeps the invariant

  lemma StepKeepsLogs(h: Hasher, db: Db, step: Step, org: int)
    requires Binding(h) && Inv(h, db)
    ensures LogInv(h, Next(h, db, step), org)
    ensures Log(db.table, org) <= Log(Next(h, db, step).table, org)
  {
    assert LogInv(h, db, org);
    if step.Commit? && step.tx in db.txs && db.txs[step.tx].phase.HashSet? {
      var tx := db.txs[step.tx];
      var row := tx.phase.row;
      assert TxInv(h, db, step.tx);
      LogAppend(db.table, row, org);
      if tx.entry.org == org {
        AppendIntact(h, Log(db.table, org), org, row);
      }
    }
  }

  lemma OthersKeepTheirTurn(h: Hasher, db: Db, step: Step, other: nat)
    requires Binding(h) && Inv(h, db)
    requires other != step.tx && other in db.txs
    ensures var after := Next(h, db, step); other in after.txs && TxInv(h, after, other)
  {
    assert TxInv(h, db, other);
    if step.tx in db.txs {
      assert TxInv(h, db, step.tx);
      var tx := db.txs[step.tx];
      if step.Commit? && tx.phase.HashSet? {
        LogAppend(db.table, tx.phase.row, db.txs[other].entry.org);
      }
    }
  }

  lemma ActorKeepsInv(h: Hasher, db: Db, step: Step)
    requires Binding(h) && Inv(h, db)
    requires step.tx in Next(h, db, step).txs
    ensures TxInv(h, Next(h, db, step), step.tx)
  {
    if step.tx in db.txs {
      assert TxInv(h, db, step.tx);
      var tx := db.txs[step.tx];
      assert LogInv(h, db, tx.entry.org);
      OrgRowsIsLog(db.table, tx.entry.org);
    }
  }

  lemma StepKeepsInv(h: Hasher, db: Db, step: Step)
    requires Binding(h) && Inv(h, db)
    ensures Inv(h, Next(h, db, step))
  {
    var after := Next(h, db, step);
    forall org ensures LogInv(h, after, org) { StepKeepsLogs(h, db, step, org); }
    forall tx | tx in after.txs ensures TxInv(h, after, tx) {
      if tx == step.tx {
        ActorKeepsInv(h, db, step);
      } else {
        OthersKeepTheirTurn(h, db, step, tx);
      }
    }
  }

  lemma {:induction false} RunKeepsInv(h: Hasher, db: Db, steps: seq<Step>)
    requires Binding(h) && Inv(h, db)
    ensures Inv(h, Run(h, db, steps))
  {
    if steps != [] {
      RunKeepsInv(h, db, steps[..|steps| - 1]);
      StepKeepsInv(h, Run(h, db, steps[..|steps| - 1]), steps[|steps| - 1]);
    }
  }

  /** Where a deployment starts: no open transaction, and logs that are intact so far; rows older
      than the chain count as such. */
  ghost predicate Start(h: Hasher, db: Db) {
    db.txs == map[] && db.locks == map[] && forall org :: LogInv(h, db, org)
  }

  // ---------------------------------------------------------------- the protocol's guarantees

  /** However appends interleave, at every reachable state each organisation's rows were committed in
      increasing id order, form one chain after the legacy prefix, and verify. */
  lemma EveryReachableLogVerifies(h: Hasher, db: Db, steps: seq<Step>, org: int)
    requires Binding(h) && Start(h, db)
    ensures var now := Run(h, db, steps);
            && ById(Log(now.table, org))
            && OrgRows(now.table, org) == Log(now.table, org)
            && Verdict(h, OrgRows(now.table, org)).ok
  {
    RunKeepsInv(h, db, steps);
    var now := Run(h, db, steps);
    assert LogInv(h, now, org);
    OrgRowsIsLog(now.table, org);
    VerdictSound(h, Log(now.table, org));
  }

  /** Logs only ever grow at their end: later states extend what earlier readers saw. */
  lemma {:induction false} LogsOnlyGrow(h: Hasher, db: Db, steps: seq<Step>, n: nat, org: int)
    requires Binding(h) && Start(h, db) && n <= |steps|
    ensures OrgRows(Run(h, db, steps[..n]).table, org) <= OrgRows(Run(h, db, steps).table, org)
  {
    if n == |steps| {
      assert steps[..n] == steps;
    } else {
      var front := steps[..|steps| - 1];
      assert front[..n] == steps[..n];
      LogsOnlyGrow(h, db, front, n, org);
      RunKeepsInv(h, db, front);
      StepKeepsLogs(h, Run(h, db, front), steps[|steps| - 1], org);
      EveryReachableLogVerifies(h, db, front, org);
      EveryReachableLogVerifies(h, db, steps, org);
    }
  }

  /** The tables that the pages of a verification read, when page k is read after `moments[k]` steps. */
  function TablesAt(h: Hasher, db: Db, steps: seq<Step>, moments: seq<nat>): (tables: seq<seq<Row>>)
    requires forall k :: 0 <= k < |moments| ==> moments[k] <= |steps|
    ensures |tables| == |moments|
  {
    seq(|moments|, k requires 0 <= k < |moments| => Run(h, db, steps[..moments[k]]).table)
  }

  /** No false alarm: a verification whose pages are read at any moments of any run of appends, with
      any page size, reports the log intact. */
  lemma VerificationDuringAppendsPasses(h: Hasher, db: Db, steps: seq<Step>, moments: seq<nat>, org: int, batchSize: nat)
    requires Binding(h) && Start(h, db) && moments != []
    requires forall k :: 0 <= k < |moments| ==> moments[k] <= |steps|
    requires forall j, k :: 0 <= j <= k < |moments| ==> moments[j] <= moments[k]
    ensures Verdict(h, Observed(OrgViews(TablesAt(h, db, steps, moments), org), batchSize, 0, None)).ok
  {
    var tables := TablesAt(h, db, steps, moments);
    var views := OrgViews(tables, org);
    forall j, k | 0 <= j <= k < |views| ensures views[j] <= views[k] {
      var later := steps[..moments[k]];
      assert later[..moments[j]] == steps[..moments[j]];
      LogsOnlyGrow(h, db, later, moments[j], org);
    }
    EveryReachableLogVerifies(h, db, steps[..moments[|moments| - 1]], org);
    if batchSize == 0 { ZeroPageSeesNothing(h, views); } else { AppendsNeverBreakVerdict(h, views, batchSize); }
  }

  // ---------------------------------------------------------------- what is recorded

  /** The transaction began at step k with this entry, and has been open from then on. */
  ghost predicate OpenSince(h: Hasher, db: Db, steps: seq<Step>, k: nat, tx: nat, entry: Entry) {
    && k < |steps| && steps[k] == Begin(tx, entry)
    && forall j :: k < j <= |steps| ==> tx in Run(h, db, steps[..j]).txs
  }

  lemma RunTo(h: Hasher, db: Db, steps: seq<Step>)
    requires steps != []
    ensures Run(h, db, steps) == Next(h, Run(h, db, steps[..|steps| - 1]), steps[|steps| - 1])
  {
  }

  /** A transaction keeps the entry it began with. */
  lemma {:induction false} OpenedBy(h: Hasher, db: Db, steps: seq<Step>, tx: nat) returns (k: nat)
    requires db.txs == map[] && tx in Run(h, db, steps).txs
    ensures OpenSince(h, db, steps, k, tx, Run(h, db, steps).txs[tx].entry)
  {
    var front := steps[..|steps| - 1];
    assert steps[..|steps|] == steps;
    if tx in Run(h, db, front).txs {
      k := OpenedBy(h, db, front, tx);
      KeepsEntry(h, Run(h, db, front), steps[|steps| - 1], tx);
      forall j | k < j <= |steps| ensures tx in Run(h, db, steps[..j]).txs {
        if j < |steps| { assert steps[..j] == front[..j]; }
      }
    } else {
      k := |steps| - 1;
    }
  }

  lemma KeepsEntry(h: Hasher, db: Db, step: Step, tx: nat)
    requires tx in db.txs && tx in Next(h, db, step).txs
    ensures Next(h, db, step).txs[tx].entry == db.txs[tx].entry
  {
  }

  /** Every row committed since the start was committed by a transaction, open from its beginning to that commit, and
      holds, column by column, the entry that the transaction began with. */
  lemma {:induction false} CommittedAsBegun(h: Hasher, db: Db, steps: seq<Step>, i: nat) returns (k: nat, m: nat)
    requires Binding(h) && Start(h, db) && |db.table| <= i < |Run(h, db, steps).table|
    ensures k < m < |steps| && steps[k].Begin? && steps[m] == Commit(steps[k].tx)
    ensures OpenSince(h, db, steps[..m], k, steps[k].tx, steps[k].entry)
    ensures |Run(h, db, steps[..m]).table| == i && Run(h, db, steps[..m]).table <= Run(h, db, steps).table
    ensures Records(Run(h, db, steps).table[i], steps[k].entry)
  {
    var front := steps[..|steps| - 1];
    var before, last := Run(h, db, front), steps[|steps| - 1];
    RunTo(h, db, steps);
    if i < |before.table| {
      k, m := CommittedAsBegun(h, db, front, i);
      assert steps[..m] == front[..m];
    } else {
      m := |front|;
      k := OpenedBy(h, db, front, last.tx);
      RunKeepsInv(h, db, front);
      assert TxInv(h, before, last.tx);
      assert front[k] == steps[k];
    }
  }

  // ---------------------------------------------------------------- one append, start to finish

  /** The row an append leaves behind when it succeeds. */
  function AppendedRow(h: Hasher, db: Db, entry: Entry): Row {
    WithHash(h, NewRow(entry, db.nextId, HeadHash(OrgRows(db.table, entry.org))))
  }

  function AppendStatement(tx: nat, entry: Entry, i: nat): Step
    requires i < 7
  {
    if i == 0 then Begin(tx, entry) else if i == 1 then Lock(tx) else if i == 2 then ReadHead(tx)
    else if i == 3 then Insert(tx) else if i == 4 then SetHash(tx) else if i == 5 then Commit(tx) else Release(tx)
  }

  /** The statements after the first, up to the n-th. */
  function Statements(tx: nat, entry: Entry, n: nat): seq<Step>
    requires 1 <= n <= 7
  {
    if n == 1 then [] else Statements(tx, entry, n - 1) + [AppendStatement(tx, entry, n - 1)]
  }

  /** What one append does when only `done` of its own statements succeed, with the statements other transactions
      run before it gets the lock: it is rolled back unless it got as far as committing. */
  function AppendSteps(tx: nat, entry: Entry, waiting: seq<Step>, done: nat): seq<Step>
    requires done >= 1
  {
    [Begin(tx, entry)] + waiting + (if done < 6 then Statements(tx, entry, done) + [Rollback(tx)] else Statements(tx, entry, 7))
  }

  lemma RunSnoc(h: Hasher, db: Db, steps: seq<Step>, step: Step)
    ensures Run(h, db, steps + [step]) == Next(h, Run(h, db, steps), step)
  {
    assert (steps + [step])[..|steps|] == steps;
  }

  /** The database session: `AppendAuditEntry` runs its statements in one transaction. */
  class AuditDb {
    var table: seq<Row>
    var nextId: nat
    var locks: map<int, nat>
    var txs: map<nat, Tx>

    ghost function State(): Db
      reads this
    {
      Db(table, nextId, locks, txs)
    }

    method Execute(h: Hasher, step: Step)
      modifies this
      ensures State() == Next(h, old(State()), step)
    {
      var next := Next(h, Db(table, nextId, locks, txs), step);
      table, nextId, locks, txs := next.table, next.nextId, next.locks, next.txs;
    }

    /** The next statement of an append that is `i` statements into its transaction. */
    method Statement(h: Hasher, tx: nat, entry: Entry, i: nat, ghost start: Db)
      requires tx !in start.txs && entry.org !in start.locks && i < 7
      requires State() == AfterSteps(h, start, tx, entry, i)
      modifies this
      ensures State() == AfterSteps(h, start, tx, entry, i + 1)
    {
      AfterStep(h, start, tx, entry, i);
      Execute(h, AppendStatement(tx, entry, i));
    }

    /** The append throws after `i` statements: everything but the sequence goes back. */
    method Undo(h: Hasher, tx: nat, entry: Entry, i: nat, ghost start: Db)
      requires tx !in start.txs && entry.org !in start.locks && 1 <= i < 6
      requires State() == AfterSteps(h, start, tx, entry, i)
      modifies this
      ensures State() == start.(nextId := start.nextId + if i < 4 then 0 else 1)
    {
      RolledBack(h, start, tx, entry, i);
      Execute(h, Rollback(tx));
    }

    /** Other transactions run their statements while this one waits. */
    method Wait(h: Hasher, waiting: seq<Step>)
      modifies this
      ensures State() == Run(h, old(State()), waiting)
    {
      var next := Run(h, Db(table, nextId, locks, txs), waiting);
      table, nextId, locks, txs := next.table, next.nextId, next.locks, next.txs;
    }

    /** The transaction takes the organisation's lock, now free, and reads the head. */
    method Prepare(h: Hasher, tx: nat, entry: Entry, done: nat, ghost start: Db) returns (ok: bool)
      requires tx !in start.txs && entry.org !in start.locks && done >= 2
      requires State() == AfterSteps(h, start, tx, entry, 1)
      modifies this
      ensures ok <==> done >= 3
      ensures State() == if ok then AfterSteps(h, start, tx, entry, 3) else start
    {
      Statement(h, tx, entry, 1, start);
      if done == 2 { Undo(h, tx, entry, 2, start); return false; }
      Statement(h, tx, entry, 2, start);
      ok := true;
    }

    /** It inserts the row, sets its hash and commits; the lock is released once the row is visible. */
    method Record(h: Hasher, tx: nat, entry: Entry, done: nat, ghost start: Db) returns (ok: bool)
      requires tx !in start.txs && entry.org !in start.locks && done >= 3
      requires State() == AfterSteps(h, start, tx, entry, 3)
      modifies this
      ensures ok <==> done >= 6
      ensures State() == if ok then AfterSteps(h, start, tx, entry, 7)
                         else start.(nextId := start.nextId + if done < 4 then 0 else 1)
    {
      if done == 3 { Undo(h, tx, entry, 3, start); return false; }
      Statement(h, tx, entry, 3, start);
      if done == 4 { Undo(h, tx, entry, 4, start); return false; }
      Statement(h, tx, entry, 4, start);
      if done == 5 { Undo(h, tx, entry, 5, start); return false; }
      Statement(h, tx, entry, 5, start);
      Statement(h, tx, entry, 6, start);
      ok := true;
    }

    /** One append: it waits until the statements of other transactions have freed the organisation's lock, and
        then either the whole row is in the table, linked to the head of that moment and hashed, or a failing
        statement rolls everything back but the sequence. Either outcome is a run of the protocol. `done` is how
        many of its statements succeed before one throws, the first being BEGIN; six or more is success. */
    method AppendAuditEntry(h: Hasher, tx: nat, entry: Entry, waiting: seq<Step>, done: nat) returns (ok: bool)
      requires Unused(State(), tx) && done >= 1 && Others(waiting, tx)
      requires done == 1 || entry.org !in Run(h, State(), waiting).locks
      modifies this
      ensures ok <==> done >= 6
      ensures var now := Run(h, old(State()), waiting);
              State() == if ok then Db(now.table + [AppendedRow(h, now, entry)], now.nextId + 1, now.locks, now.txs)
                         else Db(now.table, now.nextId + (if done < 4 then 0 else 1), now.locks, now.txs)
      ensures ok ==> var now := Run(h, old(State()), waiting);
                     var row, head := table[|now.table|], HeadHash(OrgRows(now.table, entry.org));
                     && Records(row, entry) && row.content.id == now.nextId && row.prevHash == Some(head)
                     && row.entryHash == Some(h(head, row.content))
      ensures State() == Run(h, old(State()), AppendSteps(tx, entry, waiting, done))
    {
      ghost var now := Run(h, State(), waiting);
      AppendRun(h, State(), tx, entry, waiting, done);
      WaitAside(h, State(), Tx(entry, Begun), tx, waiting);
      Execute(h, Begin(tx, entry));
      Wait(h, waiting);
      if done == 1 {
        GoneAgain(h, now, tx, entry);
        Execute(h, Rollback(tx));
        return false;
      }
      ok := Prepare(h, tx, entry, done, now);
      if ok { ok := Record(h, tx, entry, done, now); }
    }
  }

  predicate Others(steps: seq<Step>, tx: nat) {
    forall i :: 0 <= i < |steps| ==> steps[i].tx != tx
  }

  /** A transaction that has not begun, and so holds no lock. */
  predicate Unused(db: Db, tx: nat) {
    tx !in db.txs && forall org :: org in db.locks ==> db.locks[org] != tx
  }

  /** A database with one more transaction open in it. */
  function Beside(db: Db, tx: nat, t: Tx): Db { db.(txs := db.txs[tx := t]) }

  lemma EndAside(db: Db, t: Tx, tx: nat, other: nat)
    requires tx !in db.txs && other != tx && other in db.txs
    ensures other in Beside(db, tx, t).txs && End(Beside(db, tx, t), other) == Beside(End(db, other), tx, t)
  {
    assert db.txs[tx := t] - {other} == (db.txs - {other})[tx := t];
  }

  lemma AdvanceAside(db: Db, t: Tx, tx: nat, other: nat, phase: Phase)
    requires tx !in db.txs && other != tx && other in db.txs
    ensures other in Beside(db, tx, t).txs && Advance(Beside(db, tx, t), other, phase) == Beside(Advance(db, other, phase), tx, t)
  {
    var moved := db.txs[other].(phase := phase);
    assert db.txs[tx := t][other := moved] == db.txs[other := moved][tx := t];
  }

  lemma BeginAside(db: Db, t: Tx, tx: nat, other: nat, begun: Tx)
    requires tx !in db.txs && other != tx && other !in db.txs
    ensures Beside(Beside(db, tx, t), other, begun) == Beside(Beside(db, other, begun), tx, t)
  {
    assert db.txs[tx := t][other := begun] == db.txs[other := begun][tx := t];
  }

  /** A transaction that only waits neither disturbs a statement of another one nor is disturbed by it. */
  lemma StepAside(h: Hasher, db: Db, t: Tx, tx: nat, step: Step, after: Db)
    requires tx !in db.txs && step.tx != tx && t.phase.Begun? && after == Next(h, db, step)
    ensures Next(h, Beside(db, tx, t), step) == Beside(after, tx, t)
  {
    if step.tx in db.txs {
      if step.Release? || step.Rollback? {
        EndAside(db, t, tx, step.tx);
      } else {
        AdvanceAside(db, t, tx, step.tx, after.txs[step.tx].phase);
      }
    } else if step.Begin? {
      BeginAside(db, t, tx, step.tx, Tx(step.entry, Begun));
    }
  }

  lemma StaysUnused(h: Hasher, db: Db, tx: nat, step: Step)
    requires Unused(db, tx) && step.tx != tx
    ensures Unused(Next(h, db, step), tx)
  {
  }

  lemma {:induction false} WaitAside(h: Hasher, db: Db, t: Tx, tx: nat, steps: seq<Step>)
    requires Unused(db, tx) && Others(steps, tx) && t.phase.Begun?
    ensures Run(h, Beside(db, tx, t), steps) == Beside(Run(h, db, steps), tx, t)
    ensures Unused(Run(h, db, steps), tx)
  {
    if steps != [] {
      var front := steps[..|steps| - 1];
      WaitAside(h, db, t, tx, front);
      StepAside(h, Run(h, db, front), t, tx, steps[|steps| - 1], Run(h, db, steps));
      StaysUnused(h, Run(h, db, front), tx, steps[|steps| - 1]);
    }
  }

  /** A transaction rolled back before it got the lock leaves no trace. */
  lemma GoneAgain(h: Hasher, db: Db, tx: nat, entry: Entry)
    requires Unused(db, tx)
    ensures Next(h, Beside(db, tx, Tx(entry, Begun)), Rollback(tx)) == db
  {
    assert db.txs[tx := Tx(entry, Begun)] - {tx} == db.txs;
  }

  lemma {:induction false} RunJoined(h: Hasher, db: Db, a: seq<Step>, b: seq<Step>)
    ensures Run(h, db, a + b) == Run(h, Run(h, db, a), b)
  {
    if b == [] {
      assert a + b == a;
    } else {
      RunJoined(h, db, a, b[..|b| - 1]);
      assert (a + b)[..|a + b| - 1] == a + b[..|b| - 1];
    }
  }

  /** How an append ends, either way: as one that found the lock free when the others were done. */
  lemma AppendRun(h: Hasher, db: Db, tx: nat, entry: Entry, waiting: seq<Step>, done: nat)
    requires Unused(db, tx) && done >= 1 && Others(waiting, tx)
    requires done == 1 || entry.org !in Run(h, db, waiting).locks
    ensures var now := Run(h, db, waiting);
            Run(h, db, AppendSteps(tx, entry, waiting, done)) ==
            if done < 6 then now.(nextId := now.nextId + if done < 4 then 0 else 1) else AfterSteps(h, now, tx, entry, 7)
  {
    var begun, now := [Begin(tx, entry)] + waiting, Run(h, db, waiting);
    var rest := if done < 6 then Statements(tx, entry, done) + [Rollback(tx)] else Statements(tx, entry, 7);
    WaitAside(h, db, Tx(entry, Begun), tx, waiting);
    RunBegin(h, db, tx, entry);
    RunJoined(h, db, [Begin(tx, entry)], waiting);
    RunJoined(h, db, begun, rest);
    assert AppendSteps(tx, entry, waiting, done) == begun + rest;
    RestRuns(h, now, tx, entry, done, rest);
  }

  lemma RunBegin(h: Hasher, db: Db, tx: nat, entry: Entry)
    requires Unused(db, tx)
    ensures Run(h, db, [Begin(tx, entry)]) == Beside(db, tx, Tx(entry, Begun))
  {
    assert [Begin(tx, entry)][..0] == [];
  }

  lemma RestRuns(h: Hasher, now: Db, tx: nat, entry: Entry, done: nat, rest: seq<Step>)
    requires Unused(now, tx) && done >= 1 && (done == 1 || entry.org !in now.locks)
    requires rest == if done < 6 then Statements(tx, entry, done) + [Rollback(tx)] else Statements(tx, entry, 7)
    ensures Run(h, Beside(now, tx, Tx(entry, Begun)), rest) ==
            if done < 6 then now.(nextId := now.nextId + if done < 4 then 0 else 1) else AfterSteps(h, now, tx, entry, 7)
  {
    var begun := Beside(now, tx, Tx(entry, Begun));
    if done == 1 {
      assert Statements(tx, entry, 1) + [Rollback(tx)] == [Rollback(tx)];
      assert [Rollback(tx)][..0] == [];
      GoneAgain(h, now, tx, entry);
    } else if done < 6 {
      StatementsRun(h, now, tx, entry, done);
      RunSnoc(h, begun, Statements(tx, entry, done), Rollback(tx));
      RolledBack(h, now, tx, entry, done);
    } else {
      StatementsRun(h, now, tx, entry, 7);
    }
  }

  lemma {:induction false} StatementsRun(h: Hasher, db: Db, tx: nat, entry: Entry, i: nat)
    requires tx !in db.txs && entry.org !in db.locks && 1 <= i <= 7
    ensures Run(h, Beside(db, tx, Tx(entry, Begun)), Statements(tx, entry, i)) == AfterSteps(h, db, tx, entry, i)
  {
    if i > 1 {
      StatementsRun(h, db, tx, entry, i - 1);
      AfterStep(h, db, tx, entry, i - 1);
      RunSnoc(h, Beside(db, tx, Tx(entry, Begun)), Statements(tx, entry, i - 1), AppendStatement(tx, entry, i - 1));
    }
  }

  /** The state of a lone transaction after its first `i` statements. */
  function AfterSteps(h: Hasher, db: Db, tx: nat, entry: Entry, i: nat): Db {
    var prev := HeadHash(OrgRows(db.table, entry.org));
    var row := NewRow(entry, db.nextId, prev);
    var phase :=
      if i <= 1 then Begun
      else if i == 2 then Locked
      else if i == 3 then HeadRead(prev)
      else if i == 4 then Inserted(row)
      else if i == 5 then HashSet(WithHash(h, row))
      else Committed;
    Db(if i < 6 then db.table else db.table + [WithHash(h, row)],
       if i < 4 then db.nextId else db.nextId + 1,
       if 2 <= i < 7 then db.locks[entry.org := tx] else db.locks,
       if 1 <= i < 7 then db.txs[tx := Tx(entry, phase)] else db.txs)
  }

  lemma AfterStep(h: Hasher, db: Db, tx: nat, entry: Entry, i: nat)
    requires tx !in db.txs && entry.org !in db.locks && i < 7
    ensures Next(h, AfterSteps(h, db, tx, entry, i), AppendStatement(tx, entry, i)) == AfterSteps(h, db, tx, entry, i + 1)
  {
    if i == 0 { BeginStep(h, db, tx, entry); }
    else if i == 1 { LockStep(h, db, tx, entry); }
    else if i == 2 { ReadStep(h, db, tx, entry); }
    else if i == 3 { InsertStep(h, db, tx, entry); }
    else if i == 4 { HashStep(h, db, tx, entry); }
    else if i == 5 { CommitStep(h, db, tx, entry); }
    else { LastStep(h, db, tx, entry); }
  }

  lemma BeginStep(h: Hasher, db: Db, tx: nat, entry: Entry)
    requires tx !in db.txs && entry.org !in db.locks
    ensures Next(h, AfterSteps(h, db, tx, entry, 0), Begin(tx, entry)) == AfterSteps(h, db, tx, entry, 1)
  {
  }

  lemma LockStep(h: Hasher, db: Db, tx: nat, entry: Entry)
    requires tx !in db.txs && entry.org !in db.locks
    ensures Next(h, AfterSteps(h, db, tx, entry, 1), Lock(tx)) == AfterSteps(h, db, tx, entry, 2)
  {
  }

  lemma ReadStep(h: Hasher, db: Db, tx: nat, entry: Entry)
    requires tx !in db.txs && entry.org !in db.locks
    ensures Next(h, AfterSteps(h, db, tx, entry, 2), ReadHead(tx)) == AfterSteps(h, db, tx, entry, 3)
  {
  }

  lemma InsertStep(h: Hasher, db: Db, tx: nat, entry: Entry)
    requires tx !in db.txs && entry.org !in db.locks
    ensures Next(h, AfterSteps(h, db, tx, entry, 3), Insert(tx)) == AfterSteps(h, db, tx, entry, 4)
  {
  }

  lemma HashStep(h: Hasher, db: Db, tx: nat, entry: Entry)
    requires tx !in db.txs && entry.org !in db.locks
    ensures Next(h, AfterSteps(h, db, tx, entry, 4), SetHash(tx)) == AfterSteps(h, db, tx, entry, 5)
  {
  }

  lemma CommitStep(h: Hasher, db: Db, tx: nat, entry: Entry)
    requires tx !in db.txs && entry.org !in db.locks
    ensures Next(h, AfterSteps(h, db, tx, entry, 5), Commit(tx)) == AfterSteps(h, db, tx, entry, 6)
  {
  }

  lemma LastStep(h: Hasher, db: Db, tx: nat, entry: Entry)
    requires tx !in db.txs && entry.org !in db.locks
    ensures Next(h, AfterSteps(h, db, tx, entry, 6), Release(tx)) == AfterSteps(h, db, tx, entry, 7)
  {
    assert db.txs[tx := Tx(entry, Committed)] - {tx} == db.txs;
    assert db.locks[entry.org := tx] - {entry.org} == db.locks;
  }

  lemma RolledBack(h: Hasher, db: Db, tx: nat, entry: Entry, i: nat)
    requires tx !in db.txs && entry.org !in db.locks && 1 <= i < 6
    ensures Next(h, AfterSteps(h, db, tx, entry, i), Rollback(tx))
              == db.(nextId := db.nextId + if i < 4 then 0 else 1)
  {
    var now := AfterSteps(h, db, tx, entry, i);
    assert now.txs - {tx} == db.txs;
    assert db.locks[entry.org := tx] - {entry.org} == db.locks;
  }
}
