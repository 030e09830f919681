// The bus as an object: its fields updated by the handlers and the timers, each method proved to do
// what the operation means.
module LiveEventBus {
  import opened Text
  import opened LiveBus
  import LiveActive

  class EventBus {
    var emitters: set<nat>
    var timeouts: map<nat, int>
    var activeRuns: seq<nat>
    var runMeta: map<nat, Meta>
    var cleanups: seq<Cleanup>
    var sent: seq<Sent>

    function Now(): Bus
      reads this
    {
      Bus(emitters, timeouts, activeRuns, runMeta, cleanups, sent)
    }

    constructor ()
      ensures Now() == EMPTY
    {
      emitters, timeouts, activeRuns, runMeta, cleanups, sent := {}, map[], [], map[], [], [];
    }

    method RegisterRun(run: nat, org: nat, now: int)
      modifies `runMeta
      ensures Now() == Next(old(Now()), Register(run, org, now))
      ensures runMeta == old(runMeta)[run := Meta(org, now)]
    {
      runMeta := runMeta[run := Meta(org, now)];
    }

    method TouchRun(run: nat, now: int)
      modifies `runMeta
      ensures Now() == Next(old(Now()), Touch(run, now))
      ensures LiveActive.MetaTells(old(Now()), run, now, Now())
    {
      if run in runMeta { runMeta := runMeta[run := runMeta[run].(lastEventAt := now)]; }
    }

    method ResetTimeout(run: nat, now: int)
      modifies `timeouts
      ensures timeouts == old(timeouts)[run := now + IDLE_MS]
    {
      timeouts := timeouts[run := now + IDLE_MS];
    }

    method OpenEmitter(run: nat, now: int)
      modifies `emitters, `timeouts
      ensures Now() == Next(old(Now()), GetEmitter(run, now))
      ensures emitters == old(emitters) + {run} && timeouts == old(timeouts)[run := now + 1800000]
    {
      if run !in emitters { emitters := emitters + {run}; }
      assert emitters == old(emitters) + {run};
      ResetTimeout(run, now);
    }

    method AddRun(run: nat)
      modifies `activeRuns, `sent
      ensures Now() == AddActive(old(Now()), run)
    {
      if run in activeRuns { return; }
      activeRuns := activeRuns + [run];
      if run in runMeta { sent := sent + [Sent(runMeta[run].org, Added(run))]; }
    }

    method RemoveRun(run: nat)
      modifies `activeRuns, `sent
      ensures Now() == RemoveActive(old(Now()), run)
    {
      if run !in activeRuns { return; }
      activeRuns := Without(activeRuns, run);
      if run in runMeta { sent := sent + [Sent(runMeta[run].org, Removed(run))]; }
    }

    method Forget(run: nat)
      modifies `emitters, `timeouts, `runMeta
      ensures Now() == Forgotten(old(Now()), run)
    {
      emitters := emitters - {run};
      timeouts := timeouts - {run};
      runMeta := runMeta - {run};
    }

    /** The delta goes out before the registration is cleared, so that it can name the organisation. */
    method UnregisterRun(run: nat)
      modifies this
      ensures Now() == Next(old(Now()), Unregister(run))
      ensures LiveActive.ForgetTells(old(Now()), run, Now())
    {
      LiveActive.ForgottenTells(Now(), run, Next(Now(), Unregister(run)));
      RemoveRun(run);
      Forget(run);
    }

    method StartIfNew(run: nat, now: int)
      modifies this
      ensures Now() == Delivered(old(Now()), run, now)
    {
      if run !in emitters {
        OpenEmitter(run, now);
        AddRun(run);
      }
    }

    method EmitEvent(run: nat, kind: Kind, now: int)
      modifies this
      ensures Now() == Next(old(Now()), Emit(run, kind, now))
      ensures LiveActive.EventTells(old(Now()), run, kind, now, Now())
    {
      LiveActive.EmitTells(Now(), run, kind, now, Next(Now(), Emit(run, kind, now)));
      TouchRun(run, now);
      if kind.Started? { AddRun(run); }
      StartIfNew(run, now);
      if kind.Ended? {
        RemoveRun(run);
        cleanups := cleanups + [Cleanup(run, now + CLEANUP_MS)];
      }
    }

    method OnTimeout(run: nat, now: int)
      requires run in timeouts && timeouts[run] <= now
      modifies this
      ensures Now() == Next(old(Now()), TimeoutFires(run, now))
      ensures LiveActive.ForgetTells(old(Now()), run, Now())
    {
      LiveActive.ForgottenTells(Now(), run, Next(Now(), TimeoutFires(run, now)));
      RemoveRun(run);
      Forget(run);
    }

    /** The delayed clean-up clears the registration without removing the run from the active set. */
    method OnCleanup(k: nat, now: int)
      requires k < |cleanups| && cleanups[k].due <= now
      modifies this
      ensures Now() == Next(old(Now()), CleanupFires(k, now))
      ensures var run := old(cleanups)[k].run;
              && activeRuns == old(activeRuns) && sent == old(sent)
              && runMeta == old(runMeta) - {run} && emitters == old(emitters) - {run} && timeouts == old(timeouts) - {run}
              && cleanups == old(cleanups[..k] + cleanups[k + 1..])
    {
      var run := cleanups[k].run;
      cleanups := cleanups[..k] + cleanups[k + 1..];
      Forget(run);
    }

    method GetActiveRunIds(org: nat) returns (result: seq<nat>)
      ensures result == ActiveOf(activeRuns, runMeta, org)
      ensures forall run :: run in result <==> run in activeRuns && run in runMeta && runMeta[run].org == org
      ensures Inv(Now()) ==> result == Fold(DeltasOf(sent, org))
    {
      result := [];
      var i := 0;
      while i < |activeRuns|
        invariant i <= |activeRuns| && result == ActiveOf(activeRuns[..i], runMeta, org)
      {
        var run := activeRuns[i];
        assert activeRuns[..i + 1][..i] == activeRuns[..i];
        if run in runMeta && runMeta[run].org == org { result := result + [run]; }
        else { assert result + [] == result; }
        i := i + 1;
      }
      assert activeRuns[..i] == activeRuns;
      if Inv(Now()) { assert OrgSees(Now(), org); }
    }

    method GetStaleRuns(maxInactivityMs: int, now: int) returns (result: seq<(nat, nat)>)
      ensures result == StaleAmong(Now(), activeRuns, maxInactivityMs, now)
      ensures forall run, org :: (run, org) in result
                <==> run in activeRuns && run in runMeta && runMeta[run].org == org && now - runMeta[run].lastEventAt > maxInactivityMs
      ensures Inv(Now()) ==> forall run :: run in activeRuns && now - runMeta[run].lastEventAt > maxInactivityMs ==>
                (run, runMeta[run].org) in result
    {
      result := [];
      var i := 0;
      while i < |activeRuns|
        invariant i <= |activeRuns| && result == StaleAmong(Now(), activeRuns[..i], maxInactivityMs, now)
      {
        var run := activeRuns[i];
        assert activeRuns[..i + 1][..i] == activeRuns[..i];
        if run in runMeta && now - runMeta[run].lastEventAt > maxInactivityMs {
          result := result + [(run, runMeta[run].org)];
        } else {
          assert result + [] == result;
        }
        i := i + 1;
      }
      assert activeRuns[..i] == activeRuns;
    }
  }
}
