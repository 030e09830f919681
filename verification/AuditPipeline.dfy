// The audit log on its way off the box, end to end: writers append to the table with the
// protocol of AuditAppend while the flush ticks of AuditExport read the committed rows of one
// organisation. What the exporter takes for granted about new rows, the writers guarantee.
module AuditPipeline {
  import opened Text
  import opened AuditChain
  import opened AuditTable
  import Append = AuditAppend
  import Export = AuditExport

  /** The database with its writers, and one destination of the organisation `org`. */
  datatype Pipeline = Pipeline(db: Append.Db, org: int, out: Export.Export)

  datatype Step = Write(append: Append.Step) | Flush(tick: Export.Step)

  /** What a destination reads is what is committed. */
  function Synced(p: Pipeline, db: Append.Db): Pipeline {
    Pipeline(db, p.org, p.out.(log := OrgRows(db.table, p.org)))
  }

  /** The log changes in no other way than by writers' transactions. */
  function Next(h: Hasher, p: Pipeline, step: Step): Pipeline {
    match step
    case Write(append) => Synced(p, Append.Next(h, p.db, append))
    case Flush(tick) => if tick.Append? then p else p.(out := Export.Next(p.out, tick))
  }

  function Run(h: Hasher, p: Pipeline, steps: seq<Step>): Pipeline {
    if steps == [] then p else Next(h, Run(h, p, steps[..|steps| - 1]), steps[|steps| - 1])
  }

  /** A destination created over the rows committed by then, its cursor at `start`. */
  ghost predicate Start(h: Hasher, p: Pipeline, start: nat) {
    Append.Start(h, p.db) && p.out.log == OrgRows(p.db.table, p.org) && Export.Created(p.out, start)
  }

  ghost predicate Inv(h: Hasher, p: Pipeline, start: nat) {
    Append.Inv(h, p.db) && p.out.log == OrgRows(p.db.table, p.org) && Export.Inv(p.out, start)
  }

  /** A statement of a writer leaves the organisation's rows as they are, or commits one row above all of them:
      exactly what the exporter's own step for a new row asks for. */
  lemma WriteIsAppend(h: Hasher, p: Pipeline, append: Append.Step, q: Pipeline)
    requires Binding(h) && Append.Inv(h, p.db) && p.out.log == OrgRows(p.db.table, p.org)
    requires q == Synced(p, Append.Next(h, p.db, append))
    ensures q.out == p.out || exists row :: Export.Above(p.out.log, row) && q.out == Export.Next(p.out, Export.Append(row))
  {
    LogsRead(h, p.db, p.org);
    Append.StepKeepsInv(h, p.db, append);
    LogsRead(h, q.db, p.org);
    if append.Commit? && append.tx in p.db.txs && p.db.txs[append.tx].phase.HashSet? {
      var row := p.db.txs[append.tx].phase.row;
      assert Append.TxInv(h, p.db, append.tx);
      Append.LogAppend(p.db.table, row, p.org);
      if row.content.orgId == p.org {
        assert Export.Above(p.out.log, row);
        assert q.out == Export.Next(p.out, Export.Append(row));
      }
    }
  }

  lemma LogsRead(h: Hasher, db: Append.Db, org: int)
    requires Append.Inv(h, db)
    ensures OrgRows(db.table, org) == Append.Log(db.table, org)
  {
    assert Append.LogInv(h, db, org);
    Append.OrgRowsIsLog(db.table, org);
  }

  lemma StepKeepsInv(h: Hasher, p: Pipeline, start: nat, step: Step)
    requires Binding(h) && Inv(h, p, start)
    ensures Inv(h, Next(h, p, step), start)
  {
    match step
    case Write(append) =>
      var q := Synced(p, Append.Next(h, p.db, append));
      WriteIsAppend(h, p, append, q);
      Append.StepKeepsInv(h, p.db, append);
      if q.out != p.out {
        var row :| Export.Above(p.out.log, row) && q.out == Export.Next(p.out, Export.Append(row));
        Export.StepKeepsInv(p.out, start, Export.Append(row));
      }
    case Flush(tick) =>
      Export.StepKeepsInv(p.out, start, tick);
      if !tick.Append? { TicksOnlyRead(p.out, tick); }
  }

  lemma TicksOnlyRead(x: Export.Export, tick: Export.Step)
    requires !tick.Append?
    ensures Export.Next(x, tick).log == x.log
  {
  }

  lemma {:induction false} RunKeepsInv(h: Hasher, p: Pipeline, start: nat, steps: seq<Step>)
    requires Binding(h) && Start(h, p, start)
    ensures Inv(h, Run(h, p, steps), start) && Run(h, p, steps).org == p.org
  {
    if steps == [] {
      Export.CreatedInv(p.out, start);
    } else {
      RunKeepsInv(h, p, start, steps[..|steps| - 1]);
      StepKeepsInv(h, Run(h, p, steps[..|steps| - 1]), start, steps[|steps| - 1]);
    }
  }

  /** The statements of the ticks among the steps, in order. */
  function Ticks(steps: seq<Step>): seq<Export.Step> {
    if steps == [] then []
    else
      var last := steps[|steps| - 1];
      Ticks(steps[..|steps| - 1]) + if last.Flush? && !last.tick.Append? then [last.tick] else []
  }

  /** The steps of an export that are not new rows, in order. */
  function NotAppends(steps: seq<Export.Step>): seq<Export.Step> {
    if steps == [] then []
    else NotAppends(steps[..|steps| - 1]) + if steps[|steps| - 1].Append? then [] else [steps[|steps| - 1]]
  }

  /** The destination goes through a run of the export protocol that makes exactly the ticks' own statements, in their
      order, and between them receives what the writers commit. */
  lemma {:induction false} RefinesExport(h: Hasher, p: Pipeline, start: nat, steps: seq<Step>) returns (run: seq<Export.Step>)
    requires Binding(h) && Start(h, p, start)
    ensures Run(h, p, steps).out == Export.Run(p.out, run) && NotAppends(run) == Ticks(steps)
  {
    if steps == [] {
      run := [];
    } else {
      var front, last := steps[..|steps| - 1], steps[|steps| - 1];
      run := RefinesExport(h, p, start, front);
      var was, now := Run(h, p, front), Run(h, p, steps);
      RunKeepsInv(h, p, start, front);
      if last.Flush? && !last.tick.Append? {
        OneMore(p.out, run, last.tick);
        run := run + [last.tick];
      } else if last.Write? {
        WriteIsAppend(h, was, last.append, now);
        if now.out != was.out {
          var row :| Export.Above(was.out.log, row) && now.out == Export.Next(was.out, Export.Append(row));
          OneMore(p.out, run, Export.Append(row));
          run := run + [Export.Append(row)];
        }
      }
    }
  }

  lemma OneMore(x: Export.Export, run: seq<Export.Step>, step: Export.Step)
    ensures Export.Run(x, run + [step]) == Export.Next(Export.Run(x, run), step)
    ensures NotAppends(run + [step]) == NotAppends(run) + if step.Append? then [] else [step]
  {
    assert (run + [step])[..|run|] == run;
  }

  /** However the writers' statements and the ticks of any number of instances interleave, and whatever fails or
      crashes: the organisation's rows verify, the deliveries without repeats are the first of its rows past the
      starting id in the order of the chain, and every row the cursor has passed is among them. */
  lemma DeliveredInChainOrder(h: Hasher, p: Pipeline, start: nat, steps: seq<Step>)
    requires Binding(h) && Start(h, p, start)
    ensures var now := Run(h, p, steps);
            var rows := OrgRows(now.db.table, p.org);
            var owed, sent := After(rows, Some(start)), Export.Distinct(now.out.delivered);
            && Verdict(h, rows).ok
            && |sent| <= |owed| && sent == owed[..|sent|]
            && forall row :: row in rows && start < row.content.id <= now.out.lastExportedId ==> row in now.out.delivered
  {
    RunKeepsInv(h, p, start, steps);
    var now := Run(h, p, steps);
    assert Append.LogInv(h, now.db, p.org);
    LogsRead(h, now.db, p.org);
    VerdictSound(h, Append.Log(now.db.table, p.org));
    Export.PassedAreDelivered(now.out, start);
  }
}
