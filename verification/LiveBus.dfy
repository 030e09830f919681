// The in-memory bus: which runs are active, whose they are, and the deltas the dashboards of each
// organisation are sent, under timers that forget runs.
module LiveBus {
  import opened Text

  datatype Delta = Added(run: nat) | Removed(run: nat)

  datatype Sent = Sent(org: nat, delta: Delta)

  datatype Meta = Meta(org: nat, lastEventAt: int)

  /** A clean-up started by run.finished or run.aborted, and when it is due. */
  datatype Cleanup = Cleanup(run: nat, due: int)

  datatype Kind = Started | Other | Ended

  /** The bus, and every delta it sent. Active runs are in the order they were added. */
  datatype Bus = Bus(
    emitters: set<nat>,
    timeouts: map<nat, int>,
    active: seq<nat>,
    meta: map<nat, Meta>,
    cleanups: seq<Cleanup>,
    sent: seq<Sent>)

  const EMPTY := Bus({}, map[], [], map[], [], [])

  const IDLE_MS := 1800000
  const CLEANUP_MS := 5000

  datatype Op =
    | Register(run: nat, org: nat, now: int)
    | Unregister(run: nat)
    | Touch(run: nat, now: int)
    | GetEmitter(run: nat, now: int)
    | Emit(run: nat, kind: Kind, now: int)
    | TimeoutFires(run: nat, now: int)
    | CleanupFires(k: nat, now: int)

  // ---------------------------------------------------------------- the operations

  function Without(s: seq<nat>, run: nat): (r: seq<nat>)
    ensures forall x :: x in r <==> x in s && x != run
  {
    if s == [] then []
    else
      assert s == s[..|s| - 1] + [s[|s| - 1]];
      Without(s[..|s| - 1], run) + (if s[|s| - 1] == run then [] else [s[|s| - 1]])
  }

  function AddActive(b: Bus, run: nat): Bus {
    if run in b.active then b
    else
      var added := b.(active := b.active + [run]);
      if run in b.meta then added.(sent := b.sent + [Sent(b.meta[run].org, Added(run))]) else added
  }

  function RemoveActive(b: Bus, run: nat): Bus {
    if run !in b.active then b
    else
      var removed := b.(active := Without(b.active, run));
      if run in b.meta then removed.(sent := b.sent + [Sent(b.meta[run].org, Removed(run))]) else removed
  }

  function Touched(b: Bus, run: nat, now: int): Bus {
    if run in b.meta then b.(meta := b.meta[run := b.meta[run].(lastEventAt := now)]) else b
  }

  function WithEmitter(b: Bus, run: nat, now: int): Bus {
    b.(emitters := b.emitters + {run}, timeouts := b.timeouts[run := now + IDLE_MS])
  }

  function Forgotten(b: Bus, run: nat): Bus {
    b.(emitters := b.emitters - {run}, timeouts := b.timeouts - {run}, meta := b.meta - {run})
  }

  /** The run becomes active: run.started says so, and so does the first event without an emitter. */
  predicate Activates(b: Bus, run: nat, kind: Kind) { kind.Started? || run !in b.emitters }

  /** Delivery opens an emitter, and marks the run active, when it has none. */
  function Delivered(b: Bus, run: nat, now: int): Bus {
    if run in b.emitters then b else AddActive(WithEmitter(b, run, now), run)
  }

  function Emitted(b: Bus, run: nat, kind: Kind, now: int): Bus {
    var touched := Touched(b, run, now);
    var started := if kind.Started? then AddActive(touched, run) else touched;
    var delivered := Delivered(started, run, now);
    if kind.Ended? then
      var ended := RemoveActive(delivered, run);
      ended.(cleanups := ended.cleanups + [Cleanup(run, now + CLEANUP_MS)])
    else delivered
  }

  function Next(b: Bus, op: Op): Bus {
    match op
    case Register(run, org, now) => b.(meta := b.meta[run := Meta(org, now)])
    case Unregister(run) => Forgotten(RemoveActive(b, run), run)
    case Touch(run, now) => Touched(b, run, now)
    case GetEmitter(run, now) => WithEmitter(b, run, now)
    case Emit(run, kind, now) => Emitted(b, run, kind, now)
    case TimeoutFires(run, now) =>
      if run in b.timeouts && b.timeouts[run] <= now then Forgotten(RemoveActive(b, run), run) else b
    case CleanupFires(k, now) =>
      if k < |b.cleanups| && b.cleanups[k].due <= now
      then Forgotten(b, b.cleanups[k].run).(cleanups := b.cleanups[..k] + b.cleanups[k + 1..]) else b
  }

  // ---------------------------------------------------------------- what dashboards see

  /** The active runs of an organisation, in order. */
  function ActiveOf(active: seq<nat>, meta: map<nat, Meta>, org: nat): (r: seq<nat>)
    ensures forall x :: x in r <==> x in active && x in meta && meta[x].org == org
  {
    if active == [] then []
    else
      var last := active[|active| - 1];
      assert active == active[..|active| - 1] + [last];
      ActiveOf(active[..|active| - 1], meta, org) + (if last in meta && meta[last].org == org then [last] else [])
  }

  /** The deltas one organisation's subscribers were sent. */
  function DeltasOf(sent: seq<Sent>, org: nat): seq<Delta> {
    if sent == [] then []
    else
      var last := sent[|sent| - 1];
      DeltasOf(sent[..|sent| - 1], org) + (if last.org == org then [last.delta] else [])
  }

  /** The list a subscriber keeps by applying deltas. */
  function Fold(deltas: seq<Delta>): seq<nat> {
    if deltas == [] then [] else Applied(Fold(deltas[..|deltas| - 1]), deltas[|deltas| - 1])
  }

  function Applied(kept: seq<nat>, delta: Delta): seq<nat> {
    if delta.Added? then kept + [delta.run] else Without(kept, delta.run)
  }

  /** A run is only added when a subscriber does not have it, and only removed when it does. */
  predicate Alternates(deltas: seq<Delta>) {
    deltas == [] ||
    (Alternates(deltas[..|deltas| - 1]) && Applies(Fold(deltas[..|deltas| - 1]), deltas[|deltas| - 1]))
  }

  predicate Applies(kept: seq<nat>, delta: Delta) {
    delta.Removed? <==> delta.run in kept
  }

  predicate OrgSees(b: Bus, org: nat) {
    var deltas := DeltasOf(b.sent, org);
    Alternates(deltas) && Fold(deltas) == ActiveOf(b.active, b.meta, org)
  }

  predicate Distinct(s: seq<nat>) { forall i, j :: 0 <= i < j < |s| ==> s[i] != s[j] }

  predicate Registered(b: Bus) { forall run :: run in b.active ==> run in b.meta }

  /** Every active run is registered, and every organisation's deltas add up to its active runs. */
  ghost predicate Inv(b: Bus) {
    Distinct(b.active) && Registered(b) && forall org :: OrgSees(b, org)
  }

  // ---------------------------------------------------------------- lists

  lemma {:induction false} ActiveOfSame(active: seq<nat>, m: map<nat, Meta>, n: map<nat, Meta>, org: nat)
    requires forall x :: x in active ==> (x in m && m[x].org == org <==> x in n && n[x].org == org)
    ensures ActiveOf(active, m, org) == ActiveOf(active, n, org)
  {
    if active != [] {
      assert forall x :: x in active[..|active| - 1] ==> x in active;
      assert active[|active| - 1] in active;
      ActiveOfSame(active[..|active| - 1], m, n, org);
    }
  }

  lemma {:induction false} WithoutNone(s: seq<nat>, run: nat)
    requires run !in s
    ensures Without(s, run) == s
  {
    if s != [] {
      assert s == s[..|s| - 1] + [s[|s| - 1]];
      WithoutNone(s[..|s| - 1], run);
    }
  }

  lemma {:induction false} ActiveOfWithout(active: seq<nat>, run: nat, meta: map<nat, Meta>, org: nat)
    ensures ActiveOf(Without(active, run), meta, org) == Without(ActiveOf(active, meta, org), run)
  {
    if active != [] {
      var front, last := active[..|active| - 1], active[|active| - 1];
      ActiveOfWithout(front, run, meta, org);
      var kept := Without(front, run);
      if last != run {
        assert (kept + [last])[..|kept|] == kept;
        WithoutAppend(ActiveOf(front, meta, org), last, run);
      } else {
        assert kept + [] == kept;
        WithoutAppend(ActiveOf(front, meta, org), last, run);
        assert ActiveOf(front, meta, org) + [] == ActiveOf(front, meta, org);
      }
      if !(last in meta && meta[last].org == org) {
        assert ActiveOf(front, meta, org) + [] == ActiveOf(front, meta, org);
        assert ActiveOf(kept, meta, org) + [] == ActiveOf(kept, meta, org);
      }
    }
  }

  lemma WithoutAppend(s: seq<nat>, x: nat, run: nat)
    ensures Without(s + [x], run) == Without(s, run) + (if x == run then [] else [x])
  {
    assert (s + [x])[..|s|] == s;
  }

  lemma {:induction false} WithoutDistinct(s: seq<nat>, run: nat)
    requires Distinct(s)
    ensures Distinct(Without(s, run))
  {
    if s != [] {
      var front, last := s[..|s| - 1], s[|s| - 1];
      WithoutDistinct(front, run);
      assert last !in front;
    }
  }

  lemma DeltasAppend(sent: seq<Sent>, one: Sent, org: nat)
    ensures DeltasOf(sent + [one], org) == DeltasOf(sent, org) + (if one.org == org then [one.delta] else [])
  {
    assert (sent + [one])[..|sent|] == sent;
  }

  lemma FoldAppend(deltas: seq<Delta>, d: Delta)
    ensures Fold(deltas + [d]) == Applied(Fold(deltas), d)
    ensures Alternates(deltas + [d]) <==> Alternates(deltas) && Applies(Fold(deltas), d)
  {
    assert (deltas + [d])[..|deltas|] == deltas;
  }

  // ---------------------------------------------------------------- adding and removing

  lemma AddSeen(b: Bus, run: nat, org: nat)
    requires Inv(b) && run in b.meta && run !in b.active
    ensures OrgSees(AddActive(b, run), org)
  {
    var o, d := b.meta[run].org, Added(run);
    assert OrgSees(b, org);
    DeltasAppend(b.sent, Sent(o, d), org);
    var active := b.active + [run];
    assert active[..|b.active|] == b.active;
    var mine := ActiveOf(b.active, b.meta, org);
    if o == org {
      FoldAppend(DeltasOf(b.sent, org), d);
    } else {
      assert mine + [] == mine;
      assert DeltasOf(b.sent, org) + [] == DeltasOf(b.sent, org);
    }
  }

  lemma AddKeepsInv(b: Bus, run: nat)
    requires Inv(b) && run in b.meta
    ensures Inv(AddActive(b, run))
  {
    if run !in b.active {
      forall org ensures OrgSees(AddActive(b, run), org) { AddSeen(b, run, org); }
    }
  }

  lemma RemoveSeen(b: Bus, run: nat, org: nat)
    requires Inv(b) && run in b.active
    ensures OrgSees(RemoveActive(b, run), org)
  {
    var o, d := b.meta[run].org, Removed(run);
    assert OrgSees(b, org);
    DeltasAppend(b.sent, Sent(o, d), org);
    ActiveOfWithout(b.active, run, b.meta, org);
    if o == org {
      FoldAppend(DeltasOf(b.sent, org), d);
    } else {
      WithoutNone(ActiveOf(b.active, b.meta, org), run);
      assert DeltasOf(b.sent, org) + [] == DeltasOf(b.sent, org);
    }
  }

  lemma RemoveKeepsInv(b: Bus, run: nat)
    requires Inv(b)
    ensures Inv(RemoveActive(b, run)) && run !in RemoveActive(b, run).active
  {
    if run in b.active {
      WithoutDistinct(b.active, run);
      forall org ensures OrgSees(RemoveActive(b, run), org) { RemoveSeen(b, run, org); }
    }
  }

  /** Registration data of runs changed without changing which active runs are whose. */
  lemma MetaKeepsInv(b: Bus, c: Bus)
    requires Inv(b) && c.active == b.active && c.sent == b.sent
    requires forall run :: run in b.active ==> run in c.meta && c.meta[run].org == b.meta[run].org
    ensures Inv(c)
  {
    forall org ensures OrgSees(c, org) {
      assert OrgSees(b, org);
      ActiveOfSame(b.active, b.meta, c.meta, org);
    }
  }

  lemma ForgetKeepsInv(b: Bus, run: nat)
    requires Inv(b) && run !in b.active
    ensures Inv(Forgotten(b, run))
  {
    MetaKeepsInv(b, Forgotten(b, run));
  }

  // ---------------------------------------------------------------- exactly when an operation is safe

  /** Registering a run that is active under another organisation, emitting an event that activates a run nobody
      registered, and a clean-up that fires while its run is active again: these, and only these, are unsafe. */
  predicate Safe(b: Bus, op: Op) {
    match op
    case Register(run, org, _) => run in b.active && run in b.meta ==> b.meta[run].org == org
    case Emit(run, kind, _) => run in b.meta || kind.Ended? || !Activates(b, run, kind)
    case CleanupFires(k, now) => k < |b.cleanups| && b.cleanups[k].due <= now ==> b.cleanups[k].run !in b.active
    case _ => true
  }

  lemma TouchedKeepsInv(b: Bus, run: nat, now: int)
    requires Inv(b)
    ensures Inv(Touched(b, run, now))
  {
    MetaKeepsInv(b, Touched(b, run, now));
  }

  lemma EmitterKeepsInv(b: Bus, run: nat, now: int)
    requires Inv(b)
    ensures Inv(WithEmitter(b, run, now))
  {
    MetaKeepsInv(b, WithEmitter(b, run, now));
  }

  lemma CleanupsKeepInv(b: Bus, c: Bus)
    requires Inv(b) && c == b.(cleanups := c.cleanups)
    ensures Inv(c)
  {
    MetaKeepsInv(b, c);
  }

  lemma EmitRegistered(b: Bus, run: nat, kind: Kind, now: int)
    requires Inv(b) && run in b.meta
    ensures Inv(Emitted(b, run, kind, now))
  {
    var touched := Touched(b, run, now);
    TouchedKeepsInv(b, run, now);
    AddKeepsInv(touched, run);
    var started := if kind.Started? then AddActive(touched, run) else touched;
    EmitterKeepsInv(started, run, now);
    AddKeepsInv(WithEmitter(started, run, now), run);
    var delivered := if run in b.emitters then started else AddActive(WithEmitter(started, run, now), run);
    RemoveKeepsInv(delivered, run);
    CleanupsKeepInv(RemoveActive(delivered, run),
                    RemoveActive(delivered, run).(cleanups := delivered.cleanups + [Cleanup(run, now + CLEANUP_MS)]));
  }

  /** A run nobody registered, made active and ended within one event. */
  lemma AddThenRemove(b: Bus, c: Bus, run: nat)
    requires run !in b.active && run !in c.meta && c.active == b.active + [run] && c.sent == b.sent && c.meta == b.meta
    ensures var r := RemoveActive(c, run); r.active == b.active && r.sent == b.sent && r.meta == b.meta
  {
    WithoutAppend(b.active, run, run);
    WithoutNone(b.active, run);
    assert b.active + [] == b.active;
  }

  /** An event of a run nobody registered leaves it active, unregistered and unannounced, unless it ends it. */
  lemma EmitUnregistered(b: Bus, run: nat, kind: Kind, now: int)
    requires Inv(b) && run !in b.meta
    ensures var c := Emitted(b, run, kind, now);
            && c.sent == b.sent && c.meta == b.meta
            && c.active == if Activates(b, run, kind) && !kind.Ended? then b.active + [run] else b.active
  {
    assert run !in b.active;
    var started := if kind.Started? then AddActive(b, run) else b;
    var delivered := Delivered(started, run, now);
    if kind.Ended? && run !in b.emitters { AddThenRemove(b, delivered, run); }
  }

  lemma EmitInvIff(b: Bus, run: nat, kind: Kind, now: int)
    requires Inv(b)
    ensures Inv(Emitted(b, run, kind, now)) <==> Safe(b, Emit(run, kind, now))
  {
    if run in b.meta {
      EmitRegistered(b, run, kind, now);
    } else {
      var c := Emitted(b, run, kind, now);
      EmitUnregistered(b, run, kind, now);
      if Activates(b, run, kind) && !kind.Ended? {
        assert run in c.active && run !in c.meta;
      } else {
        MetaKeepsInv(b, c);
      }
    }
  }

  lemma RegisterInvIff(b: Bus, run: nat, org: nat, now: int)
    requires Inv(b)
    ensures Inv(Next(b, Register(run, org, now))) <==> Safe(b, Register(run, org, now))
  {
    var c := Next(b, Register(run, org, now));
    if Safe(b, Register(run, org, now)) {
      MetaKeepsInv(b, c);
    } else {
      var was := b.meta[run].org;
      assert OrgSees(b, was);
      assert run in ActiveOf(b.active, b.meta, was) && run !in ActiveOf(c.active, c.meta, was);
      assert !OrgSees(c, was);
    }
  }

  lemma CleanupInvIff(b: Bus, k: nat, now: int)
    requires Inv(b)
    ensures Inv(Next(b, CleanupFires(k, now))) <==> Safe(b, CleanupFires(k, now))
  {
    if k < |b.cleanups| && b.cleanups[k].due <= now {
      var run, c := b.cleanups[k].run, Next(b, CleanupFires(k, now));
      if run in b.active {
        assert run in c.active && run !in c.meta;
      } else {
        ForgetKeepsInv(b, run);
        CleanupsKeepInv(Forgotten(b, run), c);
      }
    }
  }

  /** The invariant survives an operation if and only if the operation is safe. */
  lemma InvKeptIff(b: Bus, op: Op)
    requires Inv(b)
    ensures Inv(Next(b, op)) <==> Safe(b, op)
  {
    match op
    case Register(run, org, now) => RegisterInvIff(b, run, org, now);
    case Unregister(run) =>
      RemoveKeepsInv(b, run);
      ForgetKeepsInv(RemoveActive(b, run), run);
    case Touch(run, now) => TouchedKeepsInv(b, run, now);
    case GetEmitter(run, now) => EmitterKeepsInv(b, run, now);
    case Emit(run, kind, now) => EmitInvIff(b, run, kind, now);
    case TimeoutFires(run, now) =>
      RemoveKeepsInv(b, run);
      ForgetKeepsInv(RemoveActive(b, run), run);
    case CleanupFires(k, now) => CleanupInvIff(b, k, now);
  }

  // ---------------------------------------------------------------- the discipline that keeps every operation safe

  /** Each run belongs to one organisation, is registered before every event, and is not activated again while a
      clean-up for it is waiting. */
  predicate Disciplined(b: Bus, op: Op, owner: nat -> nat) {
    match op
    case Register(run, org, _) => org == owner(run)
    case Emit(run, kind, _) => run in b.meta && (Activates(b, run, kind) ==> !Waiting(b.cleanups, run))
    case _ => true
  }

  predicate Waiting(cleanups: seq<Cleanup>, run: nat) {
    exists k :: 0 <= k < |cleanups| && cleanups[k].run == run
  }

  predicate Owned(b: Bus, owner: nat -> nat) {
    && (forall run :: run in b.meta ==> b.meta[run].org == owner(run))
    && (forall k :: 0 <= k < |b.cleanups| ==> b.cleanups[k].run !in b.active)
  }

  lemma DisciplineIsSafe(b: Bus, op: Op, owner: nat -> nat)
    requires Inv(b) && Owned(b, owner) && Disciplined(b, op, owner)
    ensures Safe(b, op)
  {
  }

  lemma EmitKeepsOwned(b: Bus, run: nat, kind: Kind, now: int, owner: nat -> nat, c: Bus)
    requires Inv(b) && Owned(b, owner) && Disciplined(b, Emit(run, kind, now), owner) && c == Emitted(b, run, kind, now)
    ensures Owned(c, owner)
  {
    EmitParts(b, run, kind, now, c);
    forall k | 0 <= k < |c.cleanups| ensures c.cleanups[k].run !in c.active {
      if k < |b.cleanups| {
        assert c.cleanups[k] == b.cleanups[k];
        assert Activates(b, run, kind) ==> b.cleanups[k].run != run;
      }
    }
  }

  /** What an event of a registered run does to the active list and the clean-ups. */
  lemma EmitParts(b: Bus, run: nat, kind: Kind, now: int, c: Bus)
    requires c == Emitted(b, run, kind, now) && run in b.meta
    ensures forall x :: x in c.active ==> x in b.active || (x == run && Activates(b, run, kind))
    ensures kind.Ended? ==> run !in c.active
    ensures c.cleanups == if kind.Ended? then b.cleanups + [Cleanup(run, now + CLEANUP_MS)] else b.cleanups
    ensures c.meta == b.meta[run := b.meta[run].(lastEventAt := now)]
  {
  }

  lemma NextKeepsOwned(b: Bus, op: Op, owner: nat -> nat, c: Bus)
    requires Inv(b) && Owned(b, owner) && Disciplined(b, op, owner) && c == Next(b, op)
    ensures Owned(c, owner)
  {
    match op
    case Emit(run, kind, now) => EmitKeepsOwned(b, run, kind, now, owner, c);
    case CleanupFires(k, now) =>
      if k < |b.cleanups| && b.cleanups[k].due <= now {
        forall i | 0 <= i < |c.cleanups| ensures c.cleanups[i].run !in c.active {
          assert c.cleanups[i] == if i < k then b.cleanups[i] else b.cleanups[i + 1];
        }
      }
    case _ =>
  }

  function Run(b: Bus, ops: seq<Op>): Bus {
    if ops == [] then b else Next(Run(b, ops[..|ops| - 1]), ops[|ops| - 1])
  }

  /** Every operation of the run keeps the discipline where it happens. */
  predicate AllDisciplined(ops: seq<Op>, owner: nat -> nat) {
    ops == [] ||
    (AllDisciplined(ops[..|ops| - 1], owner) && Disciplined(Run(EMPTY, ops[..|ops| - 1]), ops[|ops| - 1], owner))
  }

  lemma EmptyInv(owner: nat -> nat)
    ensures Inv(EMPTY) && Owned(EMPTY, owner)
  {
    forall org ensures OrgSees(EMPTY, org) {
      assert DeltasOf([], org) == [] && ActiveOf([], map[], org) == [];
    }
  }

  /** In every state the bus reaches: each active run is registered, the deltas of an organisation add and remove
      each run in turn, and folding them gives exactly its active runs, in order. */
  lemma {:induction false} DeltasTellActiveRuns(ops: seq<Op>, owner: nat -> nat)
    requires AllDisciplined(ops, owner)
    ensures Inv(Run(EMPTY, ops)) && Owned(Run(EMPTY, ops), owner)
  {
    if ops == [] {
      EmptyInv(owner);
    } else {
      var front, op := ops[..|ops| - 1], ops[|ops| - 1];
      DeltasTellActiveRuns(front, owner);
      var b := Run(EMPTY, front);
      DisciplineIsSafe(b, op, owner);
      InvKeptIff(b, op);
      NextKeepsOwned(b, op, owner, Next(b, op));
    }
  }

  // ---------------------------------------------------------------- stale runs

  predicate Stale(b: Bus, run: nat, maxInactivityMs: int, now: int) {
    run in b.meta && now - b.meta[run].lastEventAt > maxInactivityMs
  }

  /** The active runs that are registered and silent for too long, in order, with their organisations. */
  function StaleAmong(b: Bus, active: seq<nat>, maxInactivityMs: int, now: int): (r: seq<(nat, nat)>)
    ensures forall run, org :: (run, org) in r <==> run in active && Stale(b, run, maxInactivityMs, now) && b.meta[run].org == org
  {
    if active == [] then []
    else
      var last := active[|active| - 1];
      assert active == active[..|active| - 1] + [last];
      StaleAmong(b, active[..|active| - 1], maxInactivityMs, now)
      + (if Stale(b, last, maxInactivityMs, now) then [(last, b.meta[last].org)] else [])
  }

  /** Under the invariant no silent active run is missed; an active run the clean-up forgot always is. */
  lemma NoStaleRunMissed(b: Bus, run: nat, maxInactivityMs: int, now: int)
    requires run in b.active
    ensures Inv(b) && now - b.meta[run].lastEventAt > maxInactivityMs ==>
              (run, b.meta[run].org) in StaleAmong(b, b.active, maxInactivityMs, now)
    ensures run !in b.meta ==> forall org :: (run, org) !in StaleAmong(b, b.active, maxInactivityMs, now)
  {
  }

  // ---------------------------------------------------------------- where the timers depart from their descriptions

  /** A run restarted inside the clean-up window: when the window ends it is active, unregistered, and no sweep
      sees it, however long it stays silent. */
  lemma RestartedRunIsLost(b: Bus, k: nat, now: int, maxInactivityMs: int, later: int)
    requires k < |b.cleanups| && b.cleanups[k].due <= now && b.cleanups[k].run in b.active
    ensures var c, run := Next(b, CleanupFires(k, now)), b.cleanups[k].run;
            && run in c.active && run !in c.meta && run !in c.timeouts
            && forall org :: (run, org) !in StaleAmong(c, c.active, maxInactivityMs, later)
  {
    var c, run := Next(b, CleanupFires(k, now)), b.cleanups[k].run;
    NoStaleRunMissed(c, run, maxInactivityMs, later);
  }

  /** The half-hour timer is set when an emitter is made or a stream opened. An event leaves the run a full half hour
      if and only if it makes the run's emitter, or the timer was set at this very moment before. */
  lemma EventSetsTimerIff(b: Bus, run: nat, kind: Kind, now: int)
    ensures var t := Emitted(b, run, kind, now).timeouts;
            run in t && t[run] == now + IDLE_MS
            <==> run !in b.emitters || (run in b.timeouts && b.timeouts[run] == now + IDLE_MS)
  {
  }

  /** What may happen while a run is busy: events that do not end it, and anything about other runs, but no stream is
      opened on it, and it is neither deleted nor timed out. */
  predicate Busy(op: Op, run: nat) {
    match op
    case Unregister(r) => r != run
    case GetEmitter(r, _) => r != run
    case TimeoutFires(r, _) => r != run
    case Emit(r, kind, _) => r == run ==> !kind.Ended?
    case _ => true
  }

  predicate AtWork(b: Bus, run: nat, due: int) {
    && run in b.emitters && run in b.timeouts && b.timeouts[run] == due && run in b.active
    && forall k :: 0 <= k < |b.cleanups| ==> b.cleanups[k].run != run
  }

  lemma BusyStep(b: Bus, op: Op, run: nat, due: int, c: Bus)
    requires AtWork(b, run, due) && Busy(op, run) && c == Next(b, op)
    ensures AtWork(c, run, due)
  {
    match op
    case Emit(r, kind, now) => if r == run { BusyEvent(b, run, kind, now, due, c); } else { OtherEvent(b, r, kind, now, run, due, c); }
    case CleanupFires(k, now) =>
      if k < |b.cleanups| && b.cleanups[k].due <= now {
        forall i | 0 <= i < |c.cleanups| ensures c.cleanups[i].run != run {
          assert c.cleanups[i] == if i < k then b.cleanups[i] else b.cleanups[i + 1];
        }
      }
    case _ =>
  }

  lemma BusyEvent(b: Bus, run: nat, kind: Kind, now: int, due: int, c: Bus)
    requires AtWork(b, run, due) && !kind.Ended? && c == Emitted(b, run, kind, now)
    ensures AtWork(c, run, due)
  {
  }

  lemma OtherEvent(b: Bus, other: nat, kind: Kind, now: int, run: nat, due: int, c: Bus)
    requires AtWork(b, run, due) && other != run && c == Emitted(b, other, kind, now)
    ensures AtWork(c, run, due)
  {
    var touched := Touched(b, other, now);
    var started := if kind.Started? then AddActive(touched, other) else touched;
    var delivered := Delivered(started, other, now);
    assert AtWork(started, run, due);
    assert AtWork(delivered, run, due);
  }

  lemma {:induction false} BusyStays(b: Bus, ops: seq<Op>, run: nat, due: int)
    requires AtWork(b, run, due) && forall op :: op in ops ==> Busy(op, run)
    ensures AtWork(Run(b, ops), run, due)
  {
    if ops != [] {
      BusyStays(b, ops[..|ops| - 1], run, due);
      assert ops[|ops| - 1] in ops;
      BusyStep(Run(b, ops[..|ops| - 1]), ops[|ops| - 1], run, due, Run(b, ops));
    }
  }

  /** So the timer measures no inactivity: however many events a run sends, when its timer fires the run is dropped if
      and only if the time the emitter was made, or a stream last opened, is half an hour back. */
  lemma BusyRunDroppedIff(b: Bus, ops: seq<Op>, run: nat, due: int, now: int)
    requires AtWork(b, run, due) && forall op :: op in ops ==> Busy(op, run)
    ensures var c := Run(b, ops);
            run in c.active && (run !in Next(c, TimeoutFires(run, now)).active <==> due <= now)
  {
    BusyStays(b, ops, run, due);
  }
}
