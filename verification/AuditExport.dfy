// Shipping the audit log off the box: flush ticks of any number of server instances, one at a
// time under a single-flight lock, move a cursor over an organisation's rows and deliver each
// batch before the cursor passes it.
module AuditExport {
  import opened Text
  import opened AuditChain
  import opened AuditTable

  const BATCH_SIZE: nat := 500
  const MAX_BATCHES_PER_TICK: nat := 20

  /** Where a tick stands: about to read a batch, holding rows that were read, or rows that were delivered. */
  datatype Phase = Ready | Fetched(rows: seq<Row>) | Shipped(rows: seq<Row>)

  /** A server instance inside its tick. */
  datatype Worker = Worker(cursor: nat, batch: nat, phase: Phase)

  /** One destination: the organisation's log, the stored cursor, every confirmed delivery in order,
      and who holds the flush lock. */
  datatype Export = Export(
    log: seq<Row>,
    lastExportedId: nat,
    delivered: seq<Row>,
    lock: Option<nat>,
    workers: map<nat, Worker>)

  datatype Step =
    | Append(row: Row)           // a writer commits a row, above every committed id of the organisation
    | StartTick(w: nat)          // try the lock; with it, load the configuration
    | Fetch(w: nat, ok: bool)    // read a batch past the cursor
    | Ship(w: nat, ok: bool)     // deliver it
    | Save(w: nat, ok: bool)     // store the cursor
    | Crash(w: nat)              // the instance dies; the database releases its lock

  predicate Above(log: seq<Row>, row: Row) {
    forall i :: 0 <= i < |log| ==> log[i].content.id < row.content.id
  }

  function Finish(x: Export, w: nat): Export {
    x.(workers := x.workers - {w}, lock := if x.lock == Some(w) then None else x.lock)
  }

  function With(x: Export, w: nat, worker: Worker): Export {
    x.(workers := x.workers[w := worker])
  }

  /** The cursor is stored; a short batch or the last batch of the budget ends the tick. */
  function Saved(x: Export, w: nat, batch: nat, size: nat, cursor: nat): Export {
    var y := x.(lastExportedId := cursor);
    if size < BATCH_SIZE || batch + 1 == MAX_BATCHES_PER_TICK then Finish(y, w)
    else With(y, w, Worker(cursor, batch + 1, Ready))
  }

  function Next(x: Export, step: Step): Export {
    match step
    case Append(row) => if Above(x.log, row) then x.(log := x.log + [row]) else x
    case StartTick(w) =>
      if x.lock.Some? || w in x.workers then x
      else With(x, w, Worker(x.lastExportedId, 0, Ready)).(lock := Some(w))
    case Fetch(w, ok) =>
      if w !in x.workers || !x.workers[w].phase.Ready? then x
      else
        var me := x.workers[w];
        var rows := Page(x.log, Some(me.cursor), BATCH_SIZE);
        if !ok || rows == [] then Finish(x, w) else With(x, w, me.(phase := Fetched(rows)))
    case Ship(w, ok) =>
      if w !in x.workers || !x.workers[w].phase.Fetched? then x
      else
        var me := x.workers[w];
        if !ok then Finish(x, w)
        else With(x, w, me.(phase := Shipped(me.phase.rows))).(delivered := x.delivered + me.phase.rows)
    case Save(w, ok) =>
      if w !in x.workers || !x.workers[w].phase.Shipped? || x.workers[w].phase.rows == [] then x
      else
        var me := x.workers[w];
        var rows := me.phase.rows;
        if !ok then Finish(x, w) else Saved(x, w, me.batch, |rows|, rows[|rows| - 1].content.id)
    case Crash(w) => Finish(x, w)
  }

  function Run(x: Export, steps: seq<Step>): Export {
    if steps == [] then x else Next(Run(x, steps[..|steps| - 1]), steps[|steps| - 1])
  }

  // ---------------------------------------------------------------- what is promised

  /** The rows a destination is owed: those past its starting id. */
  function Owed(x: Export, start: nat): seq<Row> { After(x.log, Some(start)) }

  /** A list with repeats removed, first occurrences kept. */
  function Distinct(rows: seq<Row>): (r: seq<Row>)
    ensures forall row :: row in r <==> row in rows
  {
    if rows == [] then []
    else
      var front, last := rows[..|rows| - 1], rows[|rows| - 1];
      assert rows == front + [last];
      if last in front then Distinct(front) else Distinct(front) + [last]
  }

  /** How many of the owed rows a cursor has passed. */
  function Passed(owed: seq<Row>, cursor: nat): (n: nat)
    ensures n <= |owed|
    ensures forall i :: 0 <= i < n ==> owed[i].content.id <= cursor
    ensures n < |owed| ==> owed[n].content.id > cursor
  {
    if owed == [] || owed[0].content.id > cursor then 0 else 1 + Passed(owed[1..], cursor)
  }

  /** Gap-free and at least once: the confirmed deliveries, repeats removed, are the first owed rows
      in id order, and include every owed row the stored cursor has passed. */
  predicate GapFree(x: Export, start: nat) {
    Covers(Owed(x, start), x.lastExportedId, Distinct(x.delivered))
  }

  // ---------------------------------------------------------------- the invariant

  /** The cursor is the starting id or the id of the last owed row it passed. */
  predicate CursorExact(owed: seq<Row>, start: nat, cursor: nat) {
    var p := Passed(owed, cursor);
    cursor >= start && cursor == if p == 0 then start else owed[p - 1].content.id
  }

  /** Everything sent is a prefix of what is owed, and reaches at least as far as the cursor. */
  predicate Covers(owed: seq<Row>, cursor: nat, sent: seq<Row>) {
    Passed(owed, cursor) <= |sent| <= |owed| && sent == owed[..|sent|]
  }

  /** A batch in hand is the run of owed rows from p on; once delivered, it is among what was sent. */
  predicate InHand(owed: seq<Row>, p: nat, phase: Phase, sent: nat) {
    match phase
    case Ready => true
    case Fetched(rows) => rows != [] && p + |rows| <= |owed| && rows == owed[p..p + |rows|]
    case Shipped(rows) => rows != [] && p + |rows| <= |owed| && rows == owed[p..p + |rows|] && p + |rows| <= sent
  }

  predicate WorkerInv(x: Export, owed: seq<Row>, sent: nat, w: nat)
    requires w in x.workers
  {
    var me := x.workers[w];
    && x.lock == Some(w)
    && me.cursor == x.lastExportedId
    && me.batch < MAX_BATCHES_PER_TICK
    && InHand(owed, Passed(owed, me.cursor), me.phase, sent)
  }

  /** The invariant, with what is owed and what was sent named. */
  predicate Kept(x: Export, start: nat, owed: seq<Row>, sent: seq<Row>) {
    && CursorExact(owed, start, x.lastExportedId)
    && Covers(owed, x.lastExportedId, sent)
    && forall w :: w in x.workers ==> WorkerInv(x, owed, |sent|, w)
  }

  predicate Inv(x: Export, start: nat) {
    ById(x.log) && Kept(x, start, Owed(x, start), Distinct(x.delivered))
  }

  // ---------------------------------------------------------------- owed rows

  lemma {:induction false} AfterKeepsOrder(rows: seq<Row>, cursor: Option<nat>)
    requires ById(rows)
    ensures ById(After(rows, cursor))
  {
    if rows != [] {
      AfterKeepsOrder(rows[1..], cursor);
      AfterAbove(rows[1..], cursor);
      forall j | 0 <= j < |After(rows[1..], cursor)|
        ensures rows[0].content.id < After(rows[1..], cursor)[j].content.id
      {
        assert After(rows[1..], cursor)[j] in rows[1..];
      }
    }
  }

  lemma {:induction false} AfterAppend(rows: seq<Row>, row: Row, cursor: nat)
    requires ById(rows) && Above(rows, row)
    ensures After(rows + [row], Some(cursor)) ==
            if row.content.id > cursor then After(rows, Some(cursor)) + [row] else []
  {
    if rows == [] {
      assert rows + [row] == [row];
    } else {
      AfterAppend(rows[1..], row, cursor);
      assert (rows + [row])[1..] == rows[1..] + [row];
      if row.content.id <= cursor { assert rows[0].content.id < row.content.id; }
    }
  }

  /** Reading past the cursor reads on from the owed rows it has passed. */
  lemma {:induction false} AfterIsTail(rows: seq<Row>, start: nat, cursor: nat)
    requires ById(rows) && start <= cursor
    ensures var owed := After(rows, Some(start)); After(rows, Some(cursor)) == owed[Passed(owed, cursor)..]
  {
    if rows != [] {
      AfterIsTail(rows[1..], start, cursor);
      if rows[0].content.id > cursor {
        AfterAll(rows, Some(start));
        AfterAll(rows, Some(cursor));
      }
    }
  }

  lemma {:induction false} PassedAppend(owed: seq<Row>, row: Row, cursor: nat)
    requires cursor < row.content.id
    ensures Passed(owed + [row], cursor) == Passed(owed, cursor)
  {
    if owed == [] {
      assert owed + [row] == [row];
    } else {
      PassedAppend(owed[1..], row, cursor);
      assert (owed + [row])[1..] == owed[1..] + [row];
    }
  }

  lemma PassedIs(owed: seq<Row>, n: nat)
    requires ById(owed) && 0 < n <= |owed|
    ensures Passed(owed, owed[n - 1].content.id) == n
  {
  }

  // ---------------------------------------------------------------- deliveries

  lemma NoRepeat(owed: seq<Row>, n: nat, row: Row)
    requires ById(owed) && n < |owed| && row == owed[n]
    ensures row !in owed[..n]
  {
  }

  lemma TakeNext(owed: seq<Row>, n: nat)
    requires n < |owed|
    ensures owed[..n + 1] == owed[..n] + [owed[n]]
  {
  }

  lemma SliceNext(sent: seq<Row>, owed: seq<Row>, p: nat, q: nat)
    requires p < q <= |owed|
    ensures sent + owed[p..q] == (sent + owed[p..q - 1]) + [owed[q - 1]]
  {
  }

  lemma DistinctNext(rows: seq<Row>, row: Row)
    ensures Distinct(rows + [row]) == if row in rows then Distinct(rows) else Distinct(rows) + [row]
  {
    assert (rows + [row])[..|rows|] == rows;
  }

  /** The length of what has been sent once the owed rows up to q are delivered. */
  function Reach(m: nat, q: nat): nat { if m <= q then q else m }

  /** Delivering a run of owed rows that starts inside what was sent leaves a longer run sent. */
  lemma {:induction false} DeliverRun(sent: seq<Row>, owed: seq<Row>, m: nat, p: nat, q: nat)
    requires ById(owed) && m <= |owed| && Distinct(sent) == owed[..m] && p <= m && p <= q <= |owed|
    ensures Distinct(sent + owed[p..q]) == owed[..Reach(m, q)]
  {
    if p == q {
      assert sent + owed[p..q] == sent;
    } else {
      DeliverRun(sent, owed, m, p, q - 1);
      DeliverOne(sent + owed[p..q - 1], owed, Reach(m, q - 1), q - 1);
      SliceNext(sent, owed, p, q);
    }
  }

  lemma DeliverRows(sent: seq<Row>, owed: seq<Row>, m: nat, p: nat, q: nat, rows: seq<Row>)
    requires ById(owed) && m <= |owed| && Distinct(sent) == owed[..m] && p <= m && p <= q <= |owed| && rows == owed[p..q]
    ensures Distinct(sent + rows) == owed[..Reach(m, q)]
  {
    DeliverRun(sent, owed, m, p, q);
  }

  lemma DeliverOne(before: seq<Row>, owed: seq<Row>, reach: nat, k: nat)
    requires ById(owed) && k <= reach <= |owed| && k < |owed| && Distinct(before) == owed[..reach]
    ensures Distinct(before + [owed[k]]) == owed[..Reach(reach, k + 1)]
  {
    DistinctNext(before, owed[k]);
    if reach == k {
      NoRepeat(owed, k, owed[k]);
      TakeNext(owed, k);
    } else {
      assert owed[k] in owed[..reach];
    }
  }

  // ---------------------------------------------------------------- every step keeps the invariant

  lemma CursorGrows(owed: seq<Row>, row: Row, start: nat, cursor: nat)
    requires CursorExact(owed, start, cursor) && row.content.id > cursor
    ensures CursorExact(owed + [row], start, cursor)
  {
    PassedAppend(owed, row, cursor);
  }

  lemma HandGrows(owed: seq<Row>, row: Row, p: nat, phase: Phase, sent: nat)
    requires InHand(owed, p, phase, sent)
    ensures InHand(owed + [row], p, phase, sent)
  {
    if !phase.Ready? {
      assert (owed + [row])[p..p + |phase.rows|] == owed[p..p + |phase.rows|];
    }
  }

  lemma KeptGrows(x: Export, y: Export, start: nat, owed: seq<Row>, sent: seq<Row>, row: Row)
    requires Kept(x, start, owed, sent) && row.content.id > x.lastExportedId
    requires y == x.(log := y.log)
    ensures Kept(y, start, owed + [row], sent)
  {
    CursorGrows(owed, row, start, x.lastExportedId);
    PassedAppend(owed, row, x.lastExportedId);
    forall w | w in y.workers ensures WorkerInv(y, owed + [row], |sent|, w) {
      assert WorkerInv(x, owed, |sent|, w);
      HandGrows(owed, row, Passed(owed, x.lastExportedId), x.workers[w].phase, |sent|);
    }
  }

  /** A row above the whole log is above the cursor, unless it is not owed at all. */
  lemma AboveCursor(log: seq<Row>, row: Row, start: nat, cursor: nat)
    requires Above(log, row) && CursorExact(After(log, Some(start)), start, cursor) && row.content.id > start
    ensures row.content.id > cursor
  {
    var owed := After(log, Some(start));
    var p := Passed(owed, cursor);
    if p > 0 {
      AfterAbove(log, Some(start));
      assert owed[p - 1] in log;
    }
  }

  lemma {:induction false} NothingOwed(log: seq<Row>, row: Row, start: nat)
    requires Above(log, row) && row.content.id <= start
    ensures After(log, Some(start)) == []
  {
    if log != [] { NothingOwed(log[1..], row, start); }
  }

  lemma AppendKeepsInv(x: Export, start: nat, row: Row)
    requires Inv(x, start)
    ensures Inv(Next(x, Append(row)), start)
  {
    if Above(x.log, row) {
      var y := x.(log := x.log + [row]);
      AfterAppend(x.log, row, start);
      if row.content.id > start {
        AboveCursor(x.log, row, start, x.lastExportedId);
        KeptGrows(x, y, start, Owed(x, start), Distinct(x.delivered), row);
      } else {
        NothingOwed(x.log, row, start);
        SameKept(x, y, start, [], Distinct(x.delivered));
      }
    }
  }

  /** The invariant looks at the log only through what is owed. */
  lemma SameKept(x: Export, y: Export, start: nat, owed: seq<Row>, sent: seq<Row>)
    requires Kept(x, start, owed, sent) && y == x.(log := y.log)
    ensures Kept(y, start, owed, sent)
  {
    forall w | w in y.workers ensures WorkerInv(y, owed, |sent|, w) {
      assert WorkerInv(x, owed, |sent|, w);
    }
  }

  /** A tick that ends leaves no instance behind. */
  lemma FinishKept(x: Export, start: nat, owed: seq<Row>, sent: seq<Row>, w: nat)
    requires Kept(x, start, owed, sent)
    ensures Kept(Finish(x, w), start, owed, sent)
  {
    forall v | v in Finish(x, w).workers ensures WorkerInv(Finish(x, w), owed, |sent|, v) {
      assert WorkerInv(x, owed, |sent|, v);
      if w in x.workers { assert WorkerInv(x, owed, |sent|, w); }
    }
  }

  /** With one instance inside, what it does next decides the invariant alone. */
  lemma StayKept(x: Export, start: nat, owed: seq<Row>, sent: seq<Row>, w: nat, next: Worker)
    requires Kept(x, start, owed, sent) && w in x.workers
    requires next.cursor == x.lastExportedId && next.batch < MAX_BATCHES_PER_TICK
    requires InHand(owed, Passed(owed, next.cursor), next.phase, |sent|)
    ensures Kept(With(x, w, next), start, owed, sent)
  {
    AloneInside(x, start, owed, sent, w);
    forall v | v in x.workers ensures v == w { AloneInside(x, start, owed, sent, v); }
  }

  /** More sent, as long as it is still a prefix of what is owed, harms nobody. */
  lemma SentKept(x: Export, y: Export, start: nat, owed: seq<Row>, sent: seq<Row>, more: seq<Row>)
    requires Kept(x, start, owed, sent) && |sent| <= |more| <= |owed| && more == owed[..|more|]
    requires y == x.(delivered := y.delivered)
    ensures Kept(y, start, owed, more)
  {
    forall w | w in y.workers ensures WorkerInv(y, owed, |more|, w) {
      assert WorkerInv(x, owed, |sent|, w);
    }
  }

  /** Nobody holds the lock, so nobody is inside: the new holder is alone. */
  lemma StartKept(x: Export, start: nat, owed: seq<Row>, sent: seq<Row>, w: nat)
    requires Kept(x, start, owed, sent) && x.lock.None?
    ensures Kept(With(x, w, Worker(x.lastExportedId, 0, Ready)).(lock := Some(w)), start, owed, sent)
  {
    NobodyInside(x, start, owed, sent);
  }

  lemma NobodyInside(x: Export, start: nat, owed: seq<Row>, sent: seq<Row>)
    requires Kept(x, start, owed, sent) && x.lock.None?
    ensures x.workers.Keys == {}
  {
    if w :| w in x.workers { AloneInside(x, start, owed, sent, w); }
  }

  /** Whoever is inside holds the lock. */
  lemma AloneInside(x: Export, start: nat, owed: seq<Row>, sent: seq<Row>, w: nat)
    requires Kept(x, start, owed, sent) && w in x.workers
    ensures x.lock == Some(w)
  {
    assert WorkerInv(x, owed, |sent|, w);
  }

  lemma StartKeepsInv(x: Export, start: nat, w: nat)
    requires Inv(x, start)
    ensures Inv(Next(x, StartTick(w)), start)
  {
    if x.lock.None? && w !in x.workers {
      StartKept(x, start, Owed(x, start), Distinct(x.delivered), w);
    }
  }

  lemma FetchKeepsInv(x: Export, start: nat, w: nat, ok: bool)
    requires Inv(x, start)
    ensures Inv(Next(x, Fetch(w, ok)), start)
  {
    var owed, sent := Owed(x, start), Distinct(x.delivered);
    if w in x.workers && x.workers[w].phase.Ready? {
      var me := x.workers[w];
      assert WorkerInv(x, owed, |sent|, w);
      AfterIsTail(x.log, start, me.cursor);
      FinishKept(x, start, owed, sent, w);
      var rows := Page(x.log, Some(me.cursor), BATCH_SIZE);
      if ok && rows != [] {
        PageInHand(owed, Passed(owed, me.cursor), rows);
        StayKept(x, start, owed, sent, w, me.(phase := Fetched(rows)));
      }
    }
  }

  lemma PageInHand(owed: seq<Row>, p: nat, rows: seq<Row>)
    requires p <= |owed| && rows == Take(owed[p..], BATCH_SIZE)
    ensures rows == [] || InHand(owed, p, Fetched(rows), 0)
  {
  }

  /** Delivering the batch in hand, with what is sent afterwards named. */
  lemma ShipKept(x: Export, y: Export, start: nat, owed: seq<Row>, sent: seq<Row>, w: nat, p: nat, rows: seq<Row>, more: seq<Row>)
    requires Kept(x, start, owed, sent) && w in x.workers && x.workers[w].phase == Fetched(rows)
    requires y == Next(x, Ship(w, true)) && p == Passed(owed, x.workers[w].cursor)
    requires more == owed[..Reach(|sent|, p + |rows|)]
    ensures Kept(y, start, owed, more) && y.log == x.log && y.delivered == x.delivered + rows
  {
    assert WorkerInv(x, owed, |sent|, w);
    var z, next := x.(delivered := x.delivered + rows), x.workers[w].(phase := Shipped(rows));
    SentKept(x, z, start, owed, sent, more);
    StayKept(z, start, owed, more, w, next);
    assert y == With(z, w, next);
  }

  lemma ShipKeepsInv(x: Export, start: nat, w: nat, ok: bool)
    requires Inv(x, start)
    ensures Inv(Next(x, Ship(w, ok)), start)
  {
    if w in x.workers && x.workers[w].phase.Fetched? {
      if ok { ShipOkKeepsInv(x, start, w); }
      else { FinishKept(x, start, Owed(x, start), Distinct(x.delivered), w); }
    }
  }

  lemma ShipOkKeepsInv(x: Export, start: nat, w: nat)
    requires Inv(x, start) && w in x.workers && x.workers[w].phase.Fetched?
    ensures Inv(Next(x, Ship(w, true)), start)
  {
    AfterKeepsOrder(x.log, Some(start));
    ShipHand(x, Next(x, Ship(w, true)), start, Owed(x, start), Distinct(x.delivered), w,
             Passed(Owed(x, start), x.workers[w].cursor), x.workers[w].phase.rows);
  }

  lemma ShipHand(x: Export, y: Export, start: nat, owed: seq<Row>, sent: seq<Row>, w: nat, p: nat, rows: seq<Row>)
    requires ById(x.log) && Kept(x, start, owed, sent) && w in x.workers && x.workers[w].phase == Fetched(rows)
    requires y == Next(x, Ship(w, true))
    requires owed == Owed(x, start) && sent == Distinct(x.delivered) && ById(owed) && p == Passed(owed, x.workers[w].cursor)
    ensures Inv(y, start)
  {
    HandIsRun(x, start, owed, sent, w);
    var more := owed[..Reach(|sent|, p + |rows|)];
    DeliverRows(x.delivered, owed, |sent|, p, p + |rows|, rows);
    ShipSent(x, y, start, owed, sent, w, p, rows, more);
  }

  lemma ShipSent(x: Export, y: Export, start: nat, owed: seq<Row>, sent: seq<Row>, w: nat, p: nat, rows: seq<Row>, more: seq<Row>)
    requires Kept(x, start, owed, sent) && w in x.workers && x.workers[w].phase == Fetched(rows)
    requires y == Next(x, Ship(w, true)) && p == Passed(owed, x.workers[w].cursor)
    requires ById(x.log) && owed == Owed(x, start) && more == owed[..Reach(|sent|, p + |rows|)]
    requires more == Distinct(x.delivered + rows)
    ensures Inv(y, start)
  {
    ShipKept(x, y, start, owed, sent, w, p, rows, more);
    InvIs(y, x.log, x.delivered + rows, start, owed, more);
  }

  lemma InvIs(y: Export, log: seq<Row>, delivered: seq<Row>, start: nat, owed: seq<Row>, sent: seq<Row>)
    requires y.log == log && y.delivered == delivered && ById(log)
    requires owed == After(log, Some(start)) && sent == Distinct(delivered) && Kept(y, start, owed, sent)
    ensures Inv(y, start)
  {
  }

  lemma HandIsRun(x: Export, start: nat, owed: seq<Row>, sent: seq<Row>, w: nat)
    requires Kept(x, start, owed, sent) && w in x.workers && !x.workers[w].phase.Ready?
    ensures var p, rows := Passed(owed, x.workers[w].cursor), x.workers[w].phase.rows;
            p <= |sent| <= |owed| && sent == owed[..|sent|] && p + |rows| <= |owed| && rows == owed[p..p + |rows|]
  {
    assert WorkerInv(x, owed, |sent|, w);
  }

  /** Storing the id of the last row delivered moves the cursor past exactly that batch. */
  lemma CursorMoves(owed: seq<Row>, start: nat, cursor: nat, rows: seq<Row>, sent: seq<Row>, p: nat, moved: nat)
    requires ById(owed) && Covers(owed, cursor, sent) && p == Passed(owed, cursor)
    requires forall row :: row in owed ==> row.content.id > start
    requires InHand(owed, p, Shipped(rows), |sent|) && moved == rows[|rows| - 1].content.id
    ensures moved > cursor && CursorExact(owed, start, moved) && Covers(owed, moved, sent)
  {
    LastInHand(owed, p, rows, moved);
    CursorAt(owed, start, cursor, p, p + |rows|, moved, sent);
  }

  lemma CursorAt(owed: seq<Row>, start: nat, cursor: nat, p: nat, q: nat, moved: nat, sent: seq<Row>)
    requires ById(owed) && Covers(owed, cursor, sent) && p == Passed(owed, cursor) && p < q <= |sent|
    requires forall row :: row in owed ==> row.content.id > start
    requires moved == owed[q - 1].content.id
    ensures moved > cursor && CursorExact(owed, start, moved) && Covers(owed, moved, sent)
  {
    PassedIs(owed, q);
    assert owed[q - 1] in owed;
    assert owed[p].content.id > cursor;
  }

  lemma LastInHand(owed: seq<Row>, p: nat, rows: seq<Row>, moved: nat)
    requires rows != [] && p + |rows| <= |owed| && rows == owed[p..p + |rows|] && moved == rows[|rows| - 1].content.id
    ensures moved == owed[p + |rows| - 1].content.id
  {
  }

  /** The state after the cursor write: nobody else is inside the tick. */
  lemma SavedKept(x: Export, start: nat, owed: seq<Row>, sent: seq<Row>, w: nat, batch: nat, size: nat, moved: nat)
    requires Kept(x, start, owed, sent) && w in x.workers && batch < MAX_BATCHES_PER_TICK
    requires CursorExact(owed, start, moved) && Covers(owed, moved, sent)
    ensures Kept(Saved(x, w, batch, size, moved), start, owed, sent)
  {
    assert WorkerInv(x, owed, |sent|, w);
    forall v | v in x.workers ensures v == w {
      assert WorkerInv(x, owed, |sent|, v);
    }
  }

  lemma SaveKept(x: Export, y: Export, start: nat, owed: seq<Row>, sent: seq<Row>, w: nat, rows: seq<Row>)
    requires Kept(x, start, owed, sent) && ById(owed) && forall row :: row in owed ==> row.content.id > start
    requires w in x.workers && x.workers[w].phase == Shipped(rows) && rows != []
    requires y == Saved(x, w, x.workers[w].batch, |rows|, rows[|rows| - 1].content.id)
    ensures Kept(y, start, owed, sent) && y.log == x.log && y.delivered == x.delivered
    ensures y.lastExportedId > x.lastExportedId
  {
    assert WorkerInv(x, owed, |sent|, w);
    CursorMoves(owed, start, x.workers[w].cursor, rows, sent, Passed(owed, x.workers[w].cursor), rows[|rows| - 1].content.id);
    SavedKept(x, start, owed, sent, w, x.workers[w].batch, |rows|, rows[|rows| - 1].content.id);
  }

  lemma SaveOkKeepsInv(x: Export, start: nat, w: nat, y: Export)
    requires Inv(x, start) && w in x.workers && x.workers[w].phase.Shipped? && x.workers[w].phase.rows != []
    requires var rows := x.workers[w].phase.rows; y == Saved(x, w, x.workers[w].batch, |rows|, rows[|rows| - 1].content.id)
    ensures Inv(y, start) && y.lastExportedId > x.lastExportedId
  {
    var owed, sent := Owed(x, start), Distinct(x.delivered);
    AfterKeepsOrder(x.log, Some(start));
    AfterAbove(x.log, Some(start));
    SaveKept(x, y, start, owed, sent, w, x.workers[w].phase.rows);
    InvIs(y, x.log, x.delivered, start, owed, sent);
  }

  lemma SaveKeepsInv(x: Export, start: nat, w: nat, ok: bool)
    requires Inv(x, start)
    ensures Inv(Next(x, Save(w, ok)), start)
    ensures Next(x, Save(w, ok)).lastExportedId >= x.lastExportedId
  {
    if w in x.workers && x.workers[w].phase.Shipped? && x.workers[w].phase.rows != [] {
      if ok { SaveOkKeepsInv(x, start, w, Next(x, Save(w, ok))); }
      else { FinishKept(x, start, Owed(x, start), Distinct(x.delivered), w); }
    }
  }

  lemma CrashKeepsInv(x: Export, start: nat, w: nat)
    requires Inv(x, start)
    ensures Inv(Next(x, Crash(w)), start)
  {
    FinishKept(x, start, Owed(x, start), Distinct(x.delivered), w);
  }

  lemma StepKeepsInv(x: Export, start: nat, step: Step)
    requires Inv(x, start)
    ensures Inv(Next(x, step), start)
    ensures Next(x, step).lastExportedId >= x.lastExportedId
  {
    match step
    case Append(row) => AppendKeepsInv(x, start, row);
    case StartTick(w) => StartKeepsInv(x, start, w);
    case Fetch(w, ok) => FetchKeepsInv(x, start, w, ok);
    case Ship(w, ok) => ShipKeepsInv(x, start, w, ok);
    case Save(w, ok) => SaveKeepsInv(x, start, w, ok);
    case Crash(w) => CrashKeepsInv(x, start, w);
  }

  lemma {:induction false} RunKeepsInv(x: Export, start: nat, steps: seq<Step>)
    requires Inv(x, start)
    ensures Inv(Run(x, steps), start)
  {
    if steps != [] {
      RunKeepsInv(x, start, steps[..|steps| - 1]);
      StepKeepsInv(Run(x, steps[..|steps| - 1]), start, steps[|steps| - 1]);
    }
  }

  // ---------------------------------------------------------------- the guarantees

  /** A new destination: nothing delivered, the cursor at its starting id. */
  predicate Created(x: Export, start: nat) {
    ById(x.log) && x.lastExportedId == start && x.delivered == [] && x.lock.None? && x.workers == map[]
  }

  lemma CreatedInv(x: Export, start: nat)
    requires Created(x, start)
    ensures Inv(x, start)
  {
    AfterAbove(x.log, Some(start));
    assert Owed(x, start) == [] || Owed(x, start)[0] in Owed(x, start);
  }

  /** In a state the invariant holds of, every owed row the cursor has passed was delivered. */
  lemma PassedAreDelivered(x: Export, start: nat)
    requires Inv(x, start)
    ensures GapFree(x, start)
    ensures forall row :: row in x.log && start < row.content.id <= x.lastExportedId ==> row in x.delivered
  {
    var owed := Owed(x, start);
    AfterAbove(x.log, Some(start));
    forall row | row in x.log && start < row.content.id <= x.lastExportedId ensures row in x.delivered {
      assert row in owed;
      var i :| 0 <= i < |owed| && owed[i] == row;
      AfterKeepsOrder(x.log, Some(start));
      assert i < Passed(owed, x.lastExportedId);
      assert Distinct(x.delivered)[i] == row;
    }
  }

  /** Whatever ticks, failures, crashes and appends happen: every row past the start that the cursor has
      passed was delivered, and the deliveries without repeats are a prefix of the owed rows in id order. */
  lemma ExportGapFree(x: Export, start: nat, steps: seq<Step>)
    requires Created(x, start)
    ensures var now := Run(x, steps);
            && GapFree(now, start)
            && forall row :: row in now.log && start < row.content.id <= now.lastExportedId ==> row in now.delivered
  {
    CreatedInv(x, start);
    RunKeepsInv(x, start, steps);
    PassedAreDelivered(Run(x, steps), start);
  }

  /** The stored cursor never moves back. */
  lemma {:induction false} CursorNeverMovesBack(x: Export, start: nat, steps: seq<Step>, n: nat)
    requires Created(x, start) && n <= |steps|
    ensures Run(x, steps[..n]).lastExportedId <= Run(x, steps).lastExportedId
  {
    if n == |steps| {
      assert steps[..n] == steps;
    } else {
      var front := steps[..|steps| - 1];
      assert front[..n] == steps[..n];
      CursorNeverMovesBack(x, start, front, n);
      CreatedInv(x, start);
      RunKeepsInv(x, start, front);
      StepKeepsInv(Run(x, front), start, steps[|steps| - 1]);
    }
  }

  /** At most one instance is inside a tick, and it holds the lock. */
  lemma SingleFlight(x: Export, start: nat, steps: seq<Step>, v: nat, w: nat)
    requires Created(x, start)
    requires v in Run(x, steps).workers && w in Run(x, steps).workers
    ensures v == w && Run(x, steps).lock == Some(w)
  {
    CreatedInv(x, start);
    RunKeepsInv(x, start, steps);
    var now := Run(x, steps);
    var owed, sent := Owed(now, start), Distinct(now.delivered);
    assert WorkerInv(now, owed, |sent|, v) && WorkerInv(now, owed, |sent|, w);
  }

  /** The lock is held exactly by the instance inside a tick. */
  predicate Held(x: Export) {
    && (x.lock.Some? ==> x.lock.value in x.workers)
    && forall w :: w in x.workers ==> x.lock == Some(w)
  }

  lemma StepKeepsHeld(x: Export, step: Step, y: Export)
    requires Held(x) && y == Next(x, step)
    ensures Held(y)
  {
  }

  lemma {:induction false} RunKeepsHeld(x: Export, start: nat, steps: seq<Step>)
    requires Created(x, start)
    ensures Held(Run(x, steps))
  {
    if steps != [] {
      RunKeepsHeld(x, start, steps[..|steps| - 1]);
      StepKeepsHeld(Run(x, steps[..|steps| - 1]), steps[|steps| - 1], Run(x, steps));
    }
  }

  /** No lock is left behind, whatever failed or crashed: in every reachable state any instance can begin a tick at the
      stored cursor, at once when nobody is inside one, and otherwise as soon as the one inside has ended or died. */
  lemma ExportNeverStuck(x: Export, start: nat, steps: seq<Step>, w: nat, y: Export)
    requires Created(x, start) && y == Run(x, steps)
    ensures y.workers == map[] ==> Begun(y, w, Next(y, StartTick(w)))
    ensures forall v :: v in y.workers ==> Begun(y, w, Next(Next(y, Crash(v)), StartTick(w))) && Next(y, StartTick(w)) == y
  {
    RunKeepsHeld(x, start, steps);
    forall v | v in y.workers
      ensures Begun(y, w, Next(Next(y, Crash(v)), StartTick(w))) && Next(y, StartTick(w)) == y
    {
      assert forall u :: u in y.workers ==> u == v;
      assert Next(y, Crash(v)).workers == map[];
    }
  }

  /** Instance w alone is inside a tick that has just begun; log, cursor and deliveries are as before. */
  predicate Begun(x: Export, w: nat, y: Export) {
    && y.log == x.log && y.lastExportedId == x.lastExportedId && y.delivered == x.delivered
    && y.lock == Some(w) && y.workers == map[w := Worker(x.lastExportedId, 0, Ready)]
  }

  // ---------------------------------------------------------------- one tick, run to its end

  /** What the outside world answers to one batch: the read, the delivery, the cursor write. */
  datatype Outcome = Outcome(read: bool, deliver: bool, save: bool)

  predicate AllWell(outcomes: seq<Outcome>) {
    forall i :: 0 <= i < |outcomes| ==> outcomes[i] == Outcome(true, true, true)
  }

  /** The destination while instance w alone is inside a tick. */
  function Inside(log: seq<Row>, last: nat, delivered: seq<Row>, w: nat, worker: Worker): Export {
    Export(log, last, delivered, Some(w), map[w := worker])
  }

  function Outside(log: seq<Row>, last: nat, delivered: seq<Row>): Export {
    Export(log, last, delivered, None, map[])
  }

  lemma RunMore(x: Export, steps: seq<Step>, step: Step)
    ensures Run(x, steps + [step]) == Next(Run(x, steps), step)
  {
    assert (steps + [step])[..|steps|] == steps;
  }

  lemma {:induction false} RunAfter(x: Export, step: Step, steps: seq<Step>)
    ensures Run(x, [step] + steps) == Run(Next(x, step), steps)
  {
    var all := [step] + steps;
    if steps == [] {
      assert all == [step] && all[..0] == [];
    } else {
      assert all[..|all| - 1] == [step] + steps[..|steps| - 1];
      RunAfter(x, step, steps[..|steps| - 1]);
    }
  }

  /** With the lock free and nobody inside, a tick begins at the stored cursor. */
  lemma TickBegins(x: Export, y: Export, w: nat)
    requires x == Outside(x.log, x.lastExportedId, x.delivered)
    requires y == Inside(x.log, x.lastExportedId, x.delivered, w, Worker(x.lastExportedId, 0, Ready))
    ensures Next(x, StartTick(w)) == y
  {
  }

  lemma Leaves(x: Export, w: nat, worker: Worker)
    requires x == Inside(x.log, x.lastExportedId, x.delivered, w, worker)
    ensures Finish(x, w) == Outside(x.log, x.lastExportedId, x.delivered)
  {
  }

  lemma Stays(x: Export, w: nat, worker: Worker, next: Worker)
    requires x == Inside(x.log, x.lastExportedId, x.delivered, w, worker)
    ensures With(x, w, next) == Inside(x.log, x.lastExportedId, x.delivered, w, next)
  {
  }

  /** One whole batch of a tick, as the steps of the protocol. */
  function BatchSteps(steps: seq<Step>, w: nat, save: bool): seq<Step> {
    steps + [Fetch(w, true)] + [Ship(w, true)] + [Save(w, save)]
  }

  lemma RunBatch(x: Export, steps: seq<Step>, w: nat, save: bool)
    ensures Run(x, BatchSteps(steps, w, save)) == Next(Next(Next(Run(x, steps), Fetch(w, true)), Ship(w, true)), Save(w, save))
  {
    RunMore(x, steps, Fetch(w, true));
    RunMore(x, steps + [Fetch(w, true)], Ship(w, true));
    RunMore(x, steps + [Fetch(w, true)] + [Ship(w, true)], Save(w, save));
  }

  lemma FetchStep(x: Export, w: nat, cursor: nat, batch: nat, rows: seq<Row>)
    requires x == Inside(x.log, x.lastExportedId, x.delivered, w, Worker(cursor, batch, Ready))
    requires rows == Page(x.log, Some(cursor), BATCH_SIZE)
    ensures Next(x, Fetch(w, false)) == Outside(x.log, x.lastExportedId, x.delivered)
    ensures rows == [] ==> Next(x, Fetch(w, true)) == Outside(x.log, x.lastExportedId, x.delivered)
    ensures rows != [] ==>
      Next(x, Fetch(w, true)) == Inside(x.log, x.lastExportedId, x.delivered, w, Worker(cursor, batch, Fetched(rows)))
  {
    Leaves(x, w, Worker(cursor, batch, Ready));
    Stays(x, w, Worker(cursor, batch, Ready), Worker(cursor, batch, Fetched(rows)));
  }

  lemma ShipStep(x: Export, w: nat, cursor: nat, batch: nat, rows: seq<Row>)
    requires x == Inside(x.log, x.lastExportedId, x.delivered, w, Worker(cursor, batch, Fetched(rows)))
    ensures Next(x, Ship(w, false)) == Outside(x.log, x.lastExportedId, x.delivered)
    ensures Next(x, Ship(w, true)) ==
            Inside(x.log, x.lastExportedId, x.delivered + rows, w, Worker(cursor, batch, Shipped(rows)))
  {
    Leaves(x, w, Worker(cursor, batch, Fetched(rows)));
    Stays(x, w, Worker(cursor, batch, Fetched(rows)), Worker(cursor, batch, Shipped(rows)));
  }

  lemma SaveStep(x: Export, w: nat, cursor: nat, batch: nat, rows: seq<Row>)
    requires x == Inside(x.log, x.lastExportedId, x.delivered, w, Worker(cursor, batch, Shipped(rows))) && rows != []
    ensures Next(x, Save(w, false)) == Outside(x.log, x.lastExportedId, x.delivered)
    ensures var moved := rows[|rows| - 1].content.id;
            Next(x, Save(w, true)) ==
            if |rows| < BATCH_SIZE || batch + 1 == MAX_BATCHES_PER_TICK then Outside(x.log, moved, x.delivered)
            else Inside(x.log, moved, x.delivered, w, Worker(moved, batch + 1, Ready))
  {
    Leaves(x, w, Worker(cursor, batch, Shipped(rows)));
    var moved := rows[|rows| - 1].content.id;
    var y := x.(lastExportedId := moved);
    Leaves(y, w, Worker(cursor, batch, Shipped(rows)));
    Stays(y, w, Worker(cursor, batch, Shipped(rows)), Worker(moved, batch + 1, Ready));
  }

  /** The tick ends at its read: it failed, or there was nothing to read. */
  lemma FetchEnds(x: Export, steps: seq<Step>, y: Export, w: nat, cursor: nat, batch: nat, rows: seq<Row>, ok: bool)
    requires y == Run(x, steps) && y == Inside(y.log, y.lastExportedId, y.delivered, w, Worker(cursor, batch, Ready))
    requires rows == Page(y.log, Some(cursor), BATCH_SIZE) && (!ok || rows == [])
    ensures Run(x, steps + [Fetch(w, ok)]) == Outside(y.log, y.lastExportedId, y.delivered)
  {
    RunMore(x, steps, Fetch(w, ok));
    FetchStep(y, w, cursor, batch, rows);
  }

  /** The tick ends at its delivery. */
  lemma ShipEnds(x: Export, steps: seq<Step>, y: Export, w: nat, cursor: nat, batch: nat, rows: seq<Row>)
    requires y == Run(x, steps) && y == Inside(y.log, y.lastExportedId, y.delivered, w, Worker(cursor, batch, Ready))
    requires rows == Page(y.log, Some(cursor), BATCH_SIZE) && rows != []
    ensures Run(x, steps + [Fetch(w, true)] + [Ship(w, false)]) == Outside(y.log, y.lastExportedId, y.delivered)
  {
    RunMore(x, steps, Fetch(w, true));
    RunMore(x, steps + [Fetch(w, true)], Ship(w, false));
    FetchStep(y, w, cursor, batch, rows);
    ShipStep(Next(y, Fetch(w, true)), w, cursor, batch, rows);
  }

  /** The batch was delivered; the cursor write decides how it ends. */
  lemma BatchEnds(x: Export, steps: seq<Step>, y: Export, w: nat, cursor: nat, batch: nat, rows: seq<Row>, save: bool)
    requires y == Run(x, steps) && y == Inside(y.log, y.lastExportedId, y.delivered, w, Worker(cursor, batch, Ready))
    requires rows == Page(y.log, Some(cursor), BATCH_SIZE) && rows != []
    ensures var moved := rows[|rows| - 1].content.id;
            Run(x, BatchSteps(steps, w, save)) ==
            if !save then Outside(y.log, y.lastExportedId, y.delivered + rows)
            else if |rows| < BATCH_SIZE || batch + 1 == MAX_BATCHES_PER_TICK then Outside(y.log, moved, y.delivered + rows)
            else Inside(y.log, moved, y.delivered + rows, w, Worker(moved, batch + 1, Ready))
  {
    RunBatch(x, steps, w, save);
    FetchStep(y, w, cursor, batch, rows);
    var z := Next(y, Fetch(w, true));
    ShipStep(z, w, cursor, batch, rows);
    SaveStep(Next(z, Ship(w, true)), w, cursor, batch, rows);
  }

  /** A page past the cursor is the next rows owed, all of them or a full batch, and its last id passes exactly it. */
  lemma PageMoves(log: seq<Row>, start: nat, cursor: nat, rows: seq<Row>)
    requires ById(log) && start <= cursor && rows == Page(log, Some(cursor), BATCH_SIZE)
    ensures var owed := After(log, Some(start)); var p := Passed(owed, cursor);
            && p + |rows| <= |owed| && |rows| <= BATCH_SIZE && (|rows| < BATCH_SIZE ==> p + |rows| == |owed|)
            && (rows != [] ==> rows[|rows| - 1].content.id > cursor
                               && Passed(owed, rows[|rows| - 1].content.id) == p + |rows|)
  {
    var owed := After(log, Some(start));
    var p := Passed(owed, cursor);
    AfterIsTail(log, start, cursor);
    if rows != [] {
      AfterKeepsOrder(log, Some(start));
      assert rows[|rows| - 1] == owed[p..][|rows| - 1] == owed[p + |rows| - 1];
      PassedIs(owed, p + |rows|);
    }
  }

  lemma PageIsFromLog(log: seq<Row>, cursor: nat, rows: seq<Row>)
    requires rows == Page(log, Some(cursor), BATCH_SIZE) && rows != []
    ensures IsIdOf(log, rows[|rows| - 1].content.id)
  {
    AfterAbove(log, Some(cursor));
    var last := rows[|rows| - 1];
    assert last == After(log, Some(cursor))[|rows| - 1];
    assert last in log;
  }

  // ---------------------------------------------------------------- rows that arrive during a tick

  function Joined(lists: seq<seq<Row>>): seq<Row> {
    if lists == [] then [] else lists[0] + Joined(lists[1..])
  }

  lemma {:induction false} JoinedSnoc(lists: seq<seq<Row>>, n: nat)
    requires n < |lists|
    ensures Joined(lists[..n + 1]) == Joined(lists[..n]) + lists[n]
    ensures Joined(lists[n..]) == lists[n] + Joined(lists[n + 1..])
  {
    assert lists[n..][1..] == lists[n + 1..];
    if n == 0 {
      assert lists[..1][1..] == [];
      assert lists[..0] == [];
    } else {
      JoinedSnoc(lists[1..], n - 1);
      assert lists[..n + 1][1..] == lists[1..][..n];
      assert lists[..n][1..] == lists[1..][..n - 1];
    }
  }

  lemma JoinedOnto(first: seq<Row>, lists: seq<seq<Row>>, n: nat)
    requires n < |lists|
    ensures first + Joined(lists[..n + 1]) == (first + Joined(lists[..n])) + lists[n]
    ensures Joined(lists[n..]) == lists[n] + Joined(lists[n + 1..])
  {
    JoinedSnoc(lists, n);
    assert first + (Joined(lists[..n]) + lists[n]) == (first + Joined(lists[..n])) + lists[n];
  }

  predicate AllPast(rows: seq<Row>, cursor: nat) {
    forall i :: 0 <= i < |rows| ==> rows[i].content.id > cursor
  }

  predicate IsIdOf(log: seq<Row>, id: nat) {
    exists i :: 0 <= i < |log| && log[i].content.id == id
  }

  lemma SplitOrder(log: seq<Row>, a: seq<Row>, b: seq<Row>, cursor: nat)
    requires ById(log + (a + b)) && AllPast(a + b, cursor)
    ensures ById(log + a) && ById((log + a) + b) && AllPast(a, cursor) && AllPast(b, cursor)
  {
    assert log + (a + b) == (log + a) + b;
    forall i, j | 0 <= i < j < |log + a| ensures (log + a)[i].content.id < (log + a)[j].content.id {
      assert ((log + a) + b)[i] == (log + a)[i] && ((log + a) + b)[j] == (log + a)[j];
    }
    forall i | 0 <= i < |a| ensures a[i].content.id > cursor { assert (a + b)[i] == a[i]; }
    forall i | 0 <= i < |b| ensures b[i].content.id > cursor { assert (a + b)[|a| + i] == b[i]; }
  }

  /** Rows above the log are past any cursor taken from it. */
  lemma StillPast(log: seq<Row>, rows: seq<Row>, cursor: nat, moved: nat)
    requires ById(log + rows) && AllPast(rows, cursor) && (moved == cursor || IsIdOf(log, moved))
    ensures AllPast(rows, moved)
  {
    if moved != cursor {
      var i :| 0 <= i < |log| && log[i].content.id == moved;
      forall j | 0 <= j < |rows| ensures rows[j].content.id > moved {
        assert (log + rows)[i] == log[i] && (log + rows)[|log| + j] == rows[j];
      }
    }
  }

  function Appends(rows: seq<Row>): seq<Step> {
    seq(|rows|, i requires 0 <= i < |rows| => Append(rows[i]))
  }

  /** Rows in id order enter the log one step at a time. */
  lemma {:induction false} RunAppends(x: Export, steps: seq<Step>, y: Export, rows: seq<Row>)
    requires y == Run(x, steps) && ById(y.log + rows)
    ensures Run(x, steps + Appends(rows)) == y.(log := y.log + rows)
  {
    if rows == [] {
      assert steps + Appends(rows) == steps;
      assert y.log + rows == y.log;
    } else {
      var front, last := rows[..|rows| - 1], rows[|rows| - 1];
      assert y.log + rows == (y.log + front) + [last];
      assert steps + Appends(rows) == (steps + Appends(front)) + [Append(last)];
      LastIsAbove(y.log + front, last);
      RunAppends(x, steps, y, front);
      RunMore(x, steps + Appends(front), Append(last));
    }
  }

  lemma LastIsAbove(log: seq<Row>, row: Row)
    requires ById(log + [row])
    ensures Above(log, row) && ById(log)
  {
    forall i | 0 <= i < |log| ensures log[i].content.id < row.content.id {
      assert (log + [row])[i] == log[i] && (log + [row])[|log|] == row;
    }
    assert forall i :: 0 <= i < |log| ==> (log + [row])[i] == log[i];
  }

  /** New rows, all past the cursor, do not change how many owed rows it has passed. */
  lemma {:induction false} ProgressStays(log: seq<Row>, rows: seq<Row>, start: nat, cursor: nat)
    requires ById(log + rows) && start <= cursor && AllPast(rows, cursor)
    ensures ById(log)
    ensures Passed(After(log + rows, Some(start)), cursor) == Passed(After(log, Some(start)), cursor)
  {
    if rows == [] {
      assert log + rows == log;
    } else {
      var front, last := rows[..|rows| - 1], rows[|rows| - 1];
      assert log + rows == (log + front) + [last];
      LastIsAbove(log + front, last);
      ProgressStays(log, front, start, cursor);
      AfterAppend(log + front, last, start);
      PassedAppend(After(log + front, Some(start)), last, cursor);
    }
  }

  function Least(a: int, b: int): (least: int)
    ensures least <= a && least <= b && (least == a || least == b)
  {
    if a <= b then a else b
  }

  /** A destination's row in audit_export_config, with the log it reads and the deliveries it made. */
  class AuditExporter {
    var log: seq<Row>
    var lastExportedId: nat
    var delivered: seq<Row>

    ghost function Ticking(w: nat, batch: nat): Export
      reads this
    {
      Inside(log, lastExportedId, delivered, w, Worker(lastExportedId, batch, Ready))
    }

    ghost function AtRest(): Export
      reads this
    {
      Outside(log, lastExportedId, delivered)
    }

    /** How many of the rows owed from the start the stored cursor has passed. */
    ghost function Progress(start: nat): nat
      reads this
    {
      Passed(After(log, Some(start)), lastExportedId)
    }

    /** One batch: read past the cursor, deliver, store the cursor. The tick goes on after a full batch, unless it
        was the last of the budget. */
    method FlushBatch(w: nat, ghost start: nat, batch: nat, outcome: Outcome, ghost x: Export, ghost before: seq<Step>)
      returns (goesOn: bool, ghost steps: seq<Step>)
      requires ById(log) && start <= lastExportedId
      requires batch < MAX_BATCHES_PER_TICK && Run(x, before) == Ticking(w, batch)
      modifies `lastExportedId, `delivered
      ensures start <= lastExportedId && (lastExportedId == old(lastExportedId) || IsIdOf(log, lastExportedId))
      ensures Run(x, steps) == if goesOn && batch + 1 < MAX_BATCHES_PER_TICK then Ticking(w, batch + 1) else AtRest()
      ensures goesOn ==> Progress(start) == old(Progress(start)) + BATCH_SIZE
      ensures !goesOn && outcome == Outcome(true, true, true) ==> Progress(start) == |After(log, Some(start))|
      ensures !goesOn ==> Progress(start) <= old(Progress(start)) + BATCH_SIZE
    {
      var cursor := lastExportedId;
      var rows := Page(log, Some(cursor), BATCH_SIZE);
      ghost var y := Run(x, before);
      PageMoves(log, start, cursor, rows);
      if !outcome.read || rows == [] {
        FetchEnds(x, before, y, w, cursor, batch, rows, outcome.read);
        steps := before + [Fetch(w, outcome.read)];
        return false, steps;
      }
      if !outcome.deliver {
        ShipEnds(x, before, y, w, cursor, batch, rows);
        steps := before + [Fetch(w, true)] + [Ship(w, false)];
        return false, steps;
      }
      delivered := delivered + rows;
      BatchEnds(x, before, y, w, cursor, batch, rows, outcome.save);
      steps := BatchSteps(before, w, outcome.save);
      if !outcome.save { return false, steps; }
      PageIsFromLog(log, cursor, rows);
      lastExportedId := rows[|rows| - 1].content.id;
      goesOn := |rows| == BATCH_SIZE;
    }

    /** Rows that writers commit before the next batch is read. */
    method Receive(w: nat, ghost start: nat, batch: nat, rows: seq<Row>, ghost x: Export, ghost before: seq<Step>)
      returns (ghost steps: seq<Step>)
      requires ById(log + rows) && start <= lastExportedId && AllPast(rows, lastExportedId)
      requires Run(x, before) == Ticking(w, batch)
      modifies `log
      ensures log == old(log) + rows
      ensures Run(x, steps) == Ticking(w, batch)
      ensures Progress(start) == old(Progress(start))
    {
      steps := before + Appends(rows);
      RunAppends(x, before, Run(x, before), rows);
      ProgressStays(log, rows, start, lastExportedId);
      log := log + rows;
    }

    /** One round of the tick: `rows` arrive, `later` are still to come, and a batch is read and shipped. */
    method NextBatch(w: nat, ghost start: nat, batch: nat, rows: seq<Row>, ghost later: seq<Row>, outcome: Outcome,
                     ghost x: Export, ghost before: seq<Step>)
      returns (goesOn: bool, ghost steps: seq<Step>)
      requires start <= lastExportedId && ById(log + (rows + later)) && AllPast(rows + later, lastExportedId)
      requires batch < MAX_BATCHES_PER_TICK && Run(x, before) == Ticking(w, batch)
      modifies this
      ensures start <= lastExportedId && log == old(log) + rows && ById(log + later) && AllPast(later, lastExportedId)
      ensures Run(x, steps) == if goesOn && batch + 1 < MAX_BATCHES_PER_TICK then Ticking(w, batch + 1) else AtRest()
      ensures goesOn ==> Progress(start) == old(Progress(start)) + BATCH_SIZE
      ensures !goesOn && outcome == Outcome(true, true, true) ==> Progress(start) == |After(log, Some(start))|
      ensures !goesOn ==> Progress(start) <= old(Progress(start)) + BATCH_SIZE
    {
      ghost var cursor := lastExportedId;
      SplitOrder(log, rows, later, cursor);
      steps := Receive(w, start, batch, rows, x, before);
      goesOn, steps := FlushBatch(w, start, batch, outcome, x, steps);
      StillPast(log, later, cursor, lastExportedId);
    }

    /** Ship pending rows batch by batch, storing the cursor after each confirmed delivery, until a failure,
        the end of the log, or the budget of batches. `arrivals[k]` are the rows that writers commit before
        batch k is read; only those of the batches that were begun are in the log when the tick ends. */
    method FlushConfig(w: nat, ghost start: nat, arrivals: seq<seq<Row>>, outcomes: seq<Outcome>)
      returns (begun: nat, ghost steps: seq<Step>)
      requires |outcomes| == |arrivals| == MAX_BATCHES_PER_TICK && start <= lastExportedId
      requires ById(log + Joined(arrivals)) && AllPast(Joined(arrivals), lastExportedId)
      modifies this
      ensures begun <= MAX_BATCHES_PER_TICK && log == old(log) + Joined(arrivals[..begun])
      ensures Run(old(Ticking(w, 0)), steps) == AtRest()
      ensures Run(old(AtRest()), [StartTick(w)] + steps) == AtRest()
      ensures AllWell(outcomes) ==>
                Progress(start) == Least(old(Progress(start)) + MAX_BATCHES_PER_TICK * BATCH_SIZE, |After(log, Some(start))|)
    {
      ghost var x, p, first := Ticking(w, 0), Progress(start), log;
      ghost var rest := AtRest();
      begun := 0;
      steps := [];
      TickBegins(rest, x, w);
      assert arrivals[0..] == arrivals && log + Joined([]) == log;
      while begun < MAX_BATCHES_PER_TICK
        invariant begun <= MAX_BATCHES_PER_TICK && start <= lastExportedId
        invariant log == first + Joined(arrivals[..begun])
        invariant ById(log + Joined(arrivals[begun..])) && AllPast(Joined(arrivals[begun..]), lastExportedId)
        invariant Run(x, steps) == if begun < MAX_BATCHES_PER_TICK then Ticking(w, begun) else AtRest()
        invariant Progress(start) == p + 500 * begun
      {
        JoinedOnto(first, arrivals, begun);
        var goesOn;
        goesOn, steps := NextBatch(w, start, begun, arrivals[begun], Joined(arrivals[begun + 1..]), outcomes[begun], x, steps);
        begun := begun + 1;
        if !goesOn {
          RunAfter(rest, StartTick(w), steps);
          return;
        }
      }
      RunAfter(rest, StartTick(w), steps);
    }
  }
}
