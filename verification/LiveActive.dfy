// Which runs are active: what one event does to the active list and to the deltas sent, and when a run
// is active after any operations.
module LiveActive {
  import opened Text
  import opened LiveBus

  /** The event makes a run active that was not. */
  predicate JoinsNow(b: Bus, run: nat, kind: Kind) { run !in b.active && (kind.Started? || run !in b.emitters) }

  /** The deltas that an event of the run sends: it is added if the event made it active, and removed if the event ends
      it and it was active then; nobody is told of a run that is not registered. */
  function DeltasFor(b: Bus, run: nat, kind: Kind): seq<Sent> {
    if run !in b.meta then []
    else
      (if JoinsNow(b, run, kind) then [Sent(b.meta[run].org, Added(run))] else [])
      + (if kind.Ended? && (run in b.active || JoinsNow(b, run, kind)) then [Sent(b.meta[run].org, Removed(run))] else [])
  }

  /** The active list after an event: run.started, and any event that finds no emitter, make the run active at the end
      of the list, an ending event takes it out, and every other run keeps its place. */
  predicate ActiveTells(b: Bus, run: nat, kind: Kind, c: Bus) {
    && (run in c.active <==> !kind.Ended? && (run in b.active || kind.Started? || run !in b.emitters))
    && Without(c.active, run) == Without(b.active, run)
    && (run in c.active && run in b.active ==> c.active == b.active)
    && (run in c.active && run !in b.active ==> c.active == b.active + [run])
  }

  /** An event finds an emitter, or makes one with a timer of half an hour, and an ending event asks for a clean-up. */
  predicate TimersTell(b: Bus, run: nat, kind: Kind, now: int, c: Bus) {
    && c.emitters == b.emitters + {run}
    && (run in b.emitters ==> c.timeouts == b.timeouts)
    && (run !in b.emitters ==> c.timeouts == b.timeouts[run := now + 1800000])
    && c.cleanups == b.cleanups + (if kind.Ended? then [Cleanup(run, now + 5000)] else [])
  }

  /** An event of a registered run is its last; who is registered, and with whom, stays. */
  predicate MetaTells(b: Bus, run: nat, now: int, c: Bus) {
    && c.meta.Keys == b.meta.Keys && (run in b.meta ==> c.meta[run] == Meta(b.meta[run].org, now))
    && forall other :: other in b.meta && other != run ==> c.meta[other] == b.meta[other]
  }

  /** What the bus is like after an event. */
  predicate EventTells(b: Bus, run: nat, kind: Kind, now: int, c: Bus) {
    && ActiveTells(b, run, kind, c) && TimersTell(b, run, kind, now, c) && MetaTells(b, run, now, c)
    && c.sent == b.sent + DeltasFor(b, run, kind)
  }

  /** The run is added when it is to join and is not there; its organisation, if it has one, is told. */
  predicate Joins(b: Bus, run: nat, joins: bool, c: Bus) {
    && c.meta == b.meta && c.cleanups == b.cleanups
    && c.active == (if joins && run !in b.active then b.active + [run] else b.active)
    && c.sent == b.sent + (if joins && run !in b.active && run in b.meta then [Sent(b.meta[run].org, Added(run))] else [])
  }

  lemma Starts(b: Bus, run: nat, kind: Kind, c: Bus)
    requires c == if kind.Started? then AddActive(b, run) else b
    ensures Joins(b, run, kind.Started?, c) && c.emitters == b.emitters && c.timeouts == b.timeouts
  {
  }

  lemma Delivers(b: Bus, run: nat, now: int, c: Bus)
    requires c == Delivered(b, run, now)
    ensures Joins(b, run, run !in b.emitters, c) && c.emitters == b.emitters + {run}
    ensures c.timeouts == if run in b.emitters then b.timeouts else b.timeouts[run := now + 1800000]
  {
  }

  lemma JoinsTwice(b: Bus, run: nat, first: bool, second: bool, c: Bus, d: Bus)
    requires Joins(b, run, first, c) && Joins(c, run, second, d)
    ensures Joins(b, run, first || second, d)
  {
  }

  lemma Removes(b: Bus, run: nat, c: Bus)
    requires c == RemoveActive(b, run)
    ensures c.active == Without(b.active, run)
    ensures c.sent == b.sent + if run in b.meta && run in b.active then [Sent(b.meta[run].org, Removed(run))] else []
    ensures c.meta == b.meta && c.emitters == b.emitters && c.timeouts == b.timeouts && c.cleanups == b.cleanups
  {
    if run !in b.active { WithoutNone(b.active, run); }
  }

  lemma {:induction false} WithoutTwice(s: seq<nat>, run: nat)
    ensures Without(Without(s, run), run) == Without(s, run) && Without(s + [run], run) == Without(s, run)
  {
    WithoutNone(Without(s, run), run);
    WithoutAppend(s, run, run);
    assert Without(s, run) + [] == Without(s, run);
  }

  /** Before an event ends anything. */
  lemma Opens(b: Bus, run: nat, kind: Kind, now: int, touched: Bus, started: Bus, d: Bus)
    requires touched == Touched(b, run, now) && started == (if kind.Started? then AddActive(touched, run) else touched)
    requires d == Delivered(started, run, now)
    ensures d.active == if JoinsNow(b, run, kind) then b.active + [run] else b.active
    ensures d.sent == b.sent + if JoinsNow(b, run, kind) && run in b.meta then [Sent(b.meta[run].org, Added(run))] else []
    ensures MetaTells(b, run, now, d) && TimersTell(b, run, Other, now, d)
  {
    Starts(touched, run, kind, started);
    Delivers(started, run, now, d);
    JoinsTwice(touched, run, kind.Started?, run !in b.emitters, started, d);
  }

  lemma EmitTells(b: Bus, run: nat, kind: Kind, now: int, c: Bus)
    requires c == Emitted(b, run, kind, now)
    ensures EventTells(b, run, kind, now, c)
  {
    var touched := Touched(b, run, now);
    var started := if kind.Started? then AddActive(touched, run) else touched;
    var delivered := Delivered(started, run, now);
    Opens(b, run, kind, now, touched, started, delivered);
    if kind.Ended? { Removes(delivered, run, RemoveActive(delivered, run)); }
    ListTells(b, run, kind, delivered, c);
    DeltasTell(b, run, kind, delivered, c);
  }

  lemma ListTells(b: Bus, run: nat, kind: Kind, d: Bus, c: Bus)
    requires d.active == if JoinsNow(b, run, kind) then b.active + [run] else b.active
    requires c.active == if kind.Ended? then Without(d.active, run) else d.active
    ensures ActiveTells(b, run, kind, c)
  {
    WithoutTwice(b.active, run);
  }

  lemma DeltasTell(b: Bus, run: nat, kind: Kind, d: Bus, c: Bus)
    requires run in d.active <==> run in b.active || JoinsNow(b, run, kind)
    requires d.sent == b.sent + if JoinsNow(b, run, kind) && run in b.meta then [Sent(b.meta[run].org, Added(run))] else []
    requires c.sent == d.sent + if kind.Ended? && run in b.meta && run in d.active then [Sent(b.meta[run].org, Removed(run))] else []
    ensures c.sent == b.sent + DeltasFor(b, run, kind)
  {
  }

  /** A run that is deleted, or that its timer forgets, leaves nothing behind but its delta. */
  predicate ForgetTells(b: Bus, run: nat, c: Bus) {
    && c.active == Without(b.active, run) && run !in c.active
    && c.sent == b.sent + (if run in b.meta && run in b.active then [Sent(b.meta[run].org, Removed(run))] else [])
    && c.meta == b.meta - {run} && c.emitters == b.emitters - {run} && c.timeouts == b.timeouts - {run}
    && c.cleanups == b.cleanups
  }

  lemma ForgottenTells(b: Bus, run: nat, c: Bus)
    requires c == Forgotten(RemoveActive(b, run), run)
    ensures ForgetTells(b, run, c)
  {
    Removes(b, run, RemoveActive(b, run));
  }

  // ---------------------------------------------------------------- any operations

  /** The k-th operation is an event that makes the run active, or finds it so. */
  predicate ActivatesAt(ops: seq<Op>, k: nat, run: nat)
    requires k < |ops|
  {
    ops[k].Emit? && ops[k].run == run && !ops[k].kind.Ended?
    && (ops[k].kind.Started? || run !in Run(EMPTY, ops[..k]).emitters)
  }

  /** The k-th operation ends the run, deletes it, or is its timer firing when due. */
  predicate EndsAt(ops: seq<Op>, k: nat, run: nat)
    requires k < |ops|
  {
    match ops[k]
    case Emit(r, kind, _) => r == run && kind.Ended?
    case Unregister(r) => r == run
    case TimeoutFires(r, now) =>
      var timeouts := Run(EMPTY, ops[..k]).timeouts;
      r == run && run in timeouts && timeouts[run] <= now
    case _ => false
  }

  predicate LastActivated(ops: seq<Op>, run: nat) {
    exists k :: 0 <= k < |ops| && ActivatesAt(ops, k, run) && forall j :: k < j < |ops| ==> !EndsAt(ops, j, run)
  }

  /** What one operation does to whether a run is active. */
  lemma OneOperation(b: Bus, op: Op, run: nat, c: Bus)
    requires c == Next(b, op)
    ensures run in c.active <==>
              if op.Emit? && op.run == run then !op.kind.Ended? && (run in b.active || op.kind.Started? || run !in b.emitters)
              else run in b.active && !(op == Unregister(run))
                   && !(op.TimeoutFires? && op.run == run && run in b.timeouts && b.timeouts[run] <= op.now)
  {
    match op
    case Emit(r, kind, now) =>
      EmitTells(b, r, kind, now, c);
      if r != run { OtherStays(b.active, c.active, r, run); }
    case _ =>
  }

  lemma OtherStays(a: seq<nat>, c: seq<nat>, r: nat, run: nat)
    requires Without(c, r) == Without(a, r) && r != run
    ensures run in c <==> run in a
  {
    assert run in c <==> run in Without(c, r);
    assert run in a <==> run in Without(a, r);
  }

  lemma FrontSame(ops: seq<Op>, front: seq<Op>, k: nat, run: nat)
    requires k < |front| < |ops| && front == ops[..|front|]
    ensures ActivatesAt(front, k, run) == ActivatesAt(ops, k, run) && EndsAt(front, k, run) == EndsAt(ops, k, run)
  {
    assert front[..k] == ops[..k];
  }

  lemma LastActivatedNext(ops: seq<Op>, front: seq<Op>, run: nat)
    requires ops != [] && front == ops[..|ops| - 1]
    ensures LastActivated(ops, run) <==>
              ActivatesAt(ops, |front|, run) || (LastActivated(front, run) && !EndsAt(ops, |front|, run))
  {
    forall k: nat | k < |front|
      ensures ActivatesAt(front, k, run) == ActivatesAt(ops, k, run) && EndsAt(front, k, run) == EndsAt(ops, k, run)
    {
      FrontSame(ops, front, k, run);
    }
    if LastActivated(front, run) && !EndsAt(ops, |front|, run) {
      var k :| 0 <= k < |front| && ActivatesAt(front, k, run) && forall j :: k < j < |front| ==> !EndsAt(front, j, run);
      assert ActivatesAt(ops, k, run);
    }
    if LastActivated(ops, run) && !ActivatesAt(ops, |front|, run) {
      var k :| 0 <= k < |ops| && ActivatesAt(ops, k, run) && forall j :: k < j < |ops| ==> !EndsAt(ops, j, run);
      assert ActivatesAt(front, k, run);
    }
  }

  /** After any operations a run, registered or not, is active if and only if the last event that made it active, or
      found it so with run.started or without an emitter, comes after its last ending event, deletion or timeout. */
  lemma {:induction false} ActiveIffActivatedLast(ops: seq<Op>, run: nat)
    ensures run in Run(EMPTY, ops).active <==> LastActivated(ops, run)
  {
    if ops != [] {
      var front, op := ops[..|ops| - 1], ops[|ops| - 1];
      ActiveIffActivatedLast(front, run);
      LastActivatedNext(ops, front, run);
      OneOperation(Run(EMPTY, front), op, run, Run(EMPTY, ops));
    }
  }
}
