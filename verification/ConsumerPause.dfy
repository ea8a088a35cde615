/** Switching the consumer off: what it stops, and the one thing that undoes it. */
module ConsumerPause {
  import opened Basics
  import opened Grants
  import opened BrokerPlans
  import opened BrokerRuns
  import opened BrokerInterleaving

  /** Neither the grant file nor a journal that may replace it has the consumer on. */
  predicate Paused(w: World) {
    && w.slot.canonical.Some? && !w.slot.canonical.value.cpaEnabled
    && (w.slot.journal.Some? ==> !w.slot.journal.value.cpaEnabled)
  }

  predicate Enables(ev: Event) {
    ev.Perform? && ev.call.SetCpa? && ev.call.enabled
  }

  /** A step that touches no consumer file and saves no record with the consumer on. */
  predicate Hushed(e: Effect) {
    && !e.CpaRename? && !e.CpaWrite?
    && (e.SavesCanonical() || e.SaveJournal? ==> !e.grant.cpaEnabled)
  }

  predicate AllHushed(plan: Plan)
    decreases plan
  {
    plan.Then? ==> Hushed(plan.effect) && AllHushed(plan.rest)
  }

  lemma RecordIsHushed(c: Grant, force: bool, now: nat, reply: Reply)
    requires !c.cpaEnabled
    ensures AllHushed(RecordReply(c, force, now, reply))
  {
    var plan := RecordReply(c, force, now, reply);
    if plan.rest.Then? {
      assert AllHushed(plan.rest.rest.rest);
      assert AllHushed(plan.rest.rest);
      assert AllHushed(plan.rest);
    }
  }

  lemma RefreshIsHushed(w: World, force: bool, now: nat, reply: Reply)
    requires Paused(w)
    ensures AllHushed(RefreshPlan(w.slot, force, now, reply))
  {
    var plan := RefreshPlan(w.slot, force, now, reply);
    if plan.Then? {
      if plan.effect.SaveIntent? {
        var flying := plan.effect.grant;
        RecordIsHushed(flying, force, now, reply);
        if !reply.NoClient? {
          assert plan.rest == Then(Send(flying.refreshToken, now), RecordReply(flying, force, now, reply));
        }
      } else if plan.rest.Then? {
        assert AllHushed(plan.rest.rest);
        assert AllHushed(plan.rest);
      }
    }
  }

  lemma CallIsHushed(w: World, key: string, call: Call)
    requires Paused(w) && (call.SetCpa? ==> !call.enabled)
    ensures AllHushed(PlanOf(w, key, call))
  {
    var plan := PlanOf(w, key, call);
    match call {
      case Refresh(force, now, reply) => RefreshIsHushed(w, force, now, reply);
      case Import(_, _) =>
        if plan.Then? && plan.rest.Then? {
          assert AllHushed(plan.rest.rest);
          assert AllHushed(plan.rest);
        }
      case SetCpa(_, _) =>
      case Acknowledge(_) =>
      case Sync(_, _, _) =>
    }
  }

  /** `after` continues `before`, paused, without one consumer file step. */
  predicate StillPaused(before: World, after: World) {
    && Paused(after) && before.log <= after.log
    && forall i | |before.log| <= i < |after.log| :: Hushed(after.log[i])
  }

  lemma {:induction false} HushedPlanStaysPaused(w: World, plan: Plan, n: nat)
    requires Paused(w) && AllHushed(plan)
    ensures StillPaused(w, RunPlan(w, plan, n)) && RunPlan(w, plan, n).cpa == w.cpa
    decreases plan
  {
    if plan.Then? && n != 0 {
      HushedPlanStaysPaused(Apply(w, plan.effect), plan.rest, n - 1);
    }
  }

  /** Once paused, the Broker neither renames nor writes a consumer file of the account, in
      any run and through refreshes and imports, until somebody switches the consumer on. */
  lemma {:induction false} PausedStaysPaused(w: World, key: string, evs: seq<Event>)
    requires Paused(w) && forall ev | ev in evs :: !Enables(ev)
    ensures StillPaused(w, Run(w, key, evs))
    decreases |evs|
  {
    if evs != [] {
      var ev := evs[0];
      assert ev in evs && !Enables(ev);
      if ev.Perform? {
        CallIsHushed(w, key, ev.call);
        HushedPlanStaysPaused(w, PlanOf(w, key, ev.call), ev.steps);
      }
      PausedStaysPaused(Step(w, key, ev), key, evs[1..]);
    }
  }

  lemma {:induction false} PerformedWasAsked(evs: seq<Event>, ev: Event)
    requires ev in evs && ev.Perform?
    ensures Asked(ev.call) in CallsOf(evs)
    decreases |evs|
  {
    if ev != evs[|evs| - 1] {
      assert ev in evs[..|evs| - 1];
      PerformedWasAsked(evs[..|evs| - 1], ev);
    }
  }

  /** The same when anything is done to the directory between any two steps. */
  lemma PausedInEveryInterleaving(w: World, key: string, moves: seq<Move>)
    requires Paused(w) && Keyed(w, key) && HonestStarts(Idle(w), key, moves)
    requires forall call | call in Started(Idle(w), key, moves) :: call.SetCpa? ==> !call.enabled
    ensures StillPaused(w, MoveAll(Idle(w), key, moves).w)
  {
    var evs := InterleavedRunIsARun(w, key, moves);
    forall ev | ev in evs
      ensures !Enables(ev)
    {
      if ev.Perform? {
        PerformedWasAsked(evs, ev);
      }
    }
    PausedStaysPaused(w, key, evs);
  }

  /** Switching the consumer off pauses the account exactly when no journal with the consumer
      on is stranded; if one is, the refresh that recovers it switches the consumer on again. */
  lemma SwitchingOffPausesExactlyWhen(w: World, key: string, hasDirectory: bool, n: nat)
    requires w.slot.canonical.Some? && 0 < n
    ensures var w1 := Step(w, key, Perform(SetCpa(false, hasDirectory), n));
            && w1.slot.canonical == Some(w.slot.canonical.value.(cpaEnabled := false, cpaSyncSuspended := false))
            && (Paused(w1) <==> w.slot.journal.None? || !w.slot.journal.value.cpaEnabled)
  {
    var plan := PlanOf(w, key, SetCpa(false, hasDirectory));
    assert RunPlan(w, plan, n) == RunPlan(Apply(w, plan.effect), plan.rest, n - 1) == Apply(w, plan.effect);
  }

  lemma RecoveryRestoresTheSwitch(w: World, key: string, force: bool, now: nat, reply: Reply, n: nat)
    requires w.slot.canonical.Some? && w.slot.journal.Some? && 0 < n
    requires var c, j := w.slot.canonical.value, w.slot.journal.value;
             SameIdentity(c, j) && c.generation <= j.generation && c.error != Some(ReauthRequired)
    ensures var w1 := Step(w, key, Perform(Refresh(force, now, reply), n));
            w1.slot.canonical.Some? && w1.slot.canonical.value.cpaEnabled == w.slot.journal.value.cpaEnabled
  {
    var plan := PlanOf(w, key, Refresh(force, now, reply));
    var w1 := Apply(w, plan.effect);
    assert RunPlan(w, plan, n) == RunPlan(w1, plan.rest, n - 1);
    if n != 1 {
      var w2 := Apply(w1, DropJournal);
      assert RunPlan(w1, plan.rest, n - 1) == RunPlan(w2, plan.rest.rest, n - 2) == w2;
    }
  }

  /** The first refresh or sync that meets a blocked account with nothing to recover switches
      the consumer off, stops the retries and records why. */
  lemma BlockedAccountIsSwitchedOff(w: World, key: string, call: Call, n: nat)
    requires w.slot.canonical.Some? && w.slot.journal.None? && w.slot.canonical.value.Blocked()
    requires (call.Refresh? || call.Sync?) && 0 < n
    ensures var c := w.slot.canonical.value; var w' := Step(w, key, Perform(call, n));
            && Paused(w') && w'.slot.canonical.value.nextRetryAt.None? && w'.cpa == w.cpa
            && w'.slot.canonical.value.Blocked()
            && (c.cpaEnabled ==> w'.slot.canonical.value.cpaSyncError == Some(c.BlockedBy()))
  {
    var plan := PlanOf(w, key, call);
    if plan.Then? {
      assert RunPlan(w, plan, n) == RunPlan(Apply(w, plan.effect), plan.rest, n - 1) == Apply(w, plan.effect);
    }
  }

  /** A request that is refused for good switches the consumer off in the same save. */
  lemma TerminalRefusalSwitchesOff(w: World, key: string, force: bool, now: nat, reply: Reply, n: nat)
    requires w.slot.canonical.Some? && w.slot.journal.None? && !w.slot.canonical.value.Blocked()
    requires Due(w.slot.canonical.value, force, now) && 3 <= n
    requires RefreshOutcome(w.slot.canonical.value.(inFlight := true), reply) == Err(ReauthRequired)
    ensures var w' := Step(w, key, Perform(Refresh(force, now, reply), n));
            && Paused(w') && w'.slot.canonical.value.error == Some(ReauthRequired)
            && w'.slot.canonical.value.cpaSyncError == Some(ReauthRequired)
            && w'.slot.canonical.value.nextRetryAt.None? && !w'.slot.canonical.value.inFlight
  {
    var c := w.slot.canonical.value;
    var flying := c.(inFlight := true);
    var send, failure := Send(c.refreshToken, now), SaveFailure(Failed(flying, ReauthRequired, now));
    var w1 := Apply(w, SaveIntent(flying));
    var w2 := Apply(w1, send);
    var w3 := Apply(w2, failure);
    var end := Return(Err(ReauthRequired));
    assert PlanOf(w, key, Refresh(force, now, reply)) == Then(SaveIntent(flying), Then(send, Then(failure, end)));
    assert RunPlan(w2, Then(failure, end), n - 2) == RunPlan(w3, end, n - 3) == w3;
    assert RunPlan(w1, Then(send, Then(failure, end)), n - 1) == w3;
  }
}
