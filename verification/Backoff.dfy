/** How far apart the scheduler's token requests are. */
module Backoff {
  import opened Basics
  import opened Grants
  import opened BrokerPlans
  import opened BrokerRuns
  import opened BrokerInterleaving

  /** Times of the token requests since the last success, promotion or import. */
  function Attempts(log: seq<Effect>): seq<nat>
    decreases |log|
  {
    if log == [] then []
    else
      var e, rest := log[|log| - 1], log[..|log| - 1];
      if e.InstallImport? || e.SaveJournal? || e.Promote? then []
      else if e.Send? then Attempts(rest) + [e.at]
      else Attempts(rest)
  }

  /** The k-th request and the next one are apart by the k-th delay. */
  ghost predicate Spaced(times: seq<nat>) {
    forall i, j | 0 <= i < j < |times| && j == i + 1 :: times[i] + Delay(j) <= times[j]
  }

  /** The earliest time of the request after these. */
  function Earliest(times: seq<nat>): nat {
    if times == [] then 0 else times[|times| - 1] + Delay(|times|)
  }

  /** An account that may send again has counted its failures and waits them out. */
  ghost predicate Paced(w: World, clock: nat) {
    var times := Attempts(w.log);
    && Spaced(times)
    && (w.slot.canonical.Some? && !w.slot.canonical.value.Blocked() ==>
          var c := w.slot.canonical.value;
          && (|times| <= c.failures || 3 <= c.failures)
          && (Earliest(times) <= clock || (c.nextRetryAt.Some? && Earliest(times) <= c.nextRetryAt.value)))
  }

  /** A scheduler's event: no forced refresh, and no refresh before an earlier one. */
  predicate Scheduled(ev: Event, clock: nat) {
    ev.Perform? && ev.call.Refresh? ==> !ev.call.force && clock <= ev.call.now
  }

  function Clock(ev: Event, clock: nat): nat {
    if ev.Perform? && ev.call.Refresh? then ev.call.now else clock
  }

  predicate ScheduledRun(evs: seq<Event>, clock: nat)
    decreases |evs|
  {
    evs != [] ==> Scheduled(evs[0], clock) && ScheduledRun(evs[1..], Clock(evs[0], clock))
  }

  lemma AttemptsStep(log: seq<Effect>, e: Effect)
    ensures Attempts(log + [e]) ==
              if e.InstallImport? || e.SaveJournal? || e.Promote? then []
              else if e.Send? then Attempts(log) + [e.at] else Attempts(log)
  {
  }

  /** Any step other than the request and its refusal keeps the pace at any later time. */
  lemma QuietStepKeepsPace(w: World, key: string, e: Effect, clock: nat)
    requires Paced(w, clock) && Legal(w, key, e) && !e.Send? && !e.SaveFailure?
    ensures Paced(Apply(w, e), clock)
  {
  }

  lemma {:induction false} QuietPlanKeepsPace(w: World, key: string, plan: Plan, n: nat, clock: nat)
    requires Paced(w, clock) && Lawful(w, key, plan) && Quiet(plan)
    ensures Paced(RunPlan(w, plan, n), clock)
    decreases plan
  {
    if plan.Then? && n != 0 {
      QuietStepKeepsPace(w, key, plan.effect, clock);
      QuietPlanKeepsPace(Apply(w, plan.effect), key, plan.rest, n - 1, clock);
    }
  }

  predicate Quiet(plan: Plan)
    decreases plan
  {
    plan.Then? ==> !plan.effect.Send? && !plan.effect.SaveFailure? && Quiet(plan.rest)
  }

  lemma {:induction false} PrependIsQuiet(steps: seq<Effect>, plan: Plan)
    requires Quiet(plan) && forall e | e in steps :: !e.Send? && !e.SaveFailure?
    ensures Quiet(Prepend(steps, plan))
    decreases |steps|
  {
    if steps != [] {
      PrependIsQuiet(steps[1..], plan);
    }
  }

  lemma OtherCallsAreQuiet(w: World, key: string, call: Call)
    requires call.Refresh? ==>
               var plan := PlanOf(w, key, call);
               plan.Then? ==> !plan.effect.SaveIntent?
    ensures Quiet(PlanOf(w, key, call))
  {
    match call {
      case Sync(dir, now, fault) =>
        if w.slot.canonical.Some? && Projects(w.slot.canonical.value) && (dir.Listed? || dir.UnreadableDirectory?) {
          var g := w.slot.canonical.value;
          var work := ProjectWork(w.cpa, key, g, dir, now, fault);
          FileStepsOnly(w.cpa, key, g, dir, now, fault);
          assert Quiet(FinishSync(g, work.error));
          PrependIsQuiet(work.steps, FinishSync(g, work.error));
        }
      case Refresh(force, now, reply) =>
      case Import(_, _) =>
      case SetCpa(_, _) =>
      case Acknowledge(_) =>
    }
  }

  lemma SpacedExtends(times: seq<nat>, now: nat)
    requires Spaced(times) && Earliest(times) <= now
    ensures Spaced(times + [now])
  {
  }

  /** What a refused request records is enough to hold the next one back. */
  lemma FailureWaits(c: Grant, error: Error, now: nat, times: seq<nat>)
    requires error in {Config, ServiceUnavailable, RecoveryRequired, ReauthRequired, Unchanged}
    requires if error == Config then (|times| <= c.failures || 3 <= c.failures) && Earliest(times) <= now
             else times != [] && times[|times| - 1] == now && (|times| <= c.failures + 1 || 3 <= c.failures)
    ensures var g := Failed(c, error, now);
            !g.Blocked() ==>
              && (|times| <= g.failures || 3 <= g.failures)
              && (Earliest(times) <= now || (g.nextRetryAt.Some? && Earliest(times) <= g.nextRetryAt.value))
  {
  }

  /** What the count of failures and the clock must say when a reply is recorded. */
  ghost predicate Attempted(w: World, now: nat, sent: bool) {
    && w.slot.canonical.Some? && w.slot.canonical.value.inFlight
    && var c := w.slot.canonical.value; var times := Attempts(w.log);
       && Spaced(times)
       && if sent then times != [] && times[|times| - 1] == now && (|times| <= c.failures + 1 || 3 <= c.failures)
          else (|times| <= c.failures || 3 <= c.failures) && Earliest(times) <= now
  }

  lemma FailureKeepsPace(w: World, now: nat, error: Error, n: nat)
    requires Attempted(w, now, error != Config)
    requires error in {Config, ServiceUnavailable, RecoveryRequired, ReauthRequired, Unchanged}
    ensures Paced(RunPlan(w, Then(SaveFailure(Failed(w.slot.canonical.value, error, now)), Return(Err(error))), n), now)
  {
    if n != 0 {
      var failure := SaveFailure(Failed(w.slot.canonical.value, error, now));
      var w1 := Apply(w, failure);
      AttemptsStep(w.log, failure);
      FailureWaits(w.slot.canonical.value, error, now, Attempts(w.log));
      assert RunPlan(w1, Return(Err(error)), n - 1) == w1;
    }
  }

  /** Recording a reply right after the request, with the request's time as the clock. */
  lemma RecordKeepsPace(w: World, now: nat, reply: Reply, n: nat)
    requires Attempted(w, now, !reply.NoClient?)
    ensures Paced(RunPlan(w, RecordReply(w.slot.canonical.value, false, now, reply), n), now)
  {
    var c := w.slot.canonical.value;
    var outcome := RefreshOutcome(c, reply);
    if outcome.Err? {
      FailureKeepsPace(w, now, outcome.error, n);
    } else if n != 0 {
      var plan := RecordReply(c, false, now, reply);
      AttemptsStep(w.log, plan.effect);
      SuccessTailIsQuiet(c, now, reply);
      NoAttemptsStayNone(Apply(w, plan.effect), plan.rest, n - 1);
    }
  }

  /** After a success there is nothing to wait for, until the next request. */
  lemma {:induction false} NoAttemptsStayNone(w: World, plan: Plan, n: nat)
    requires Attempts(w.log) == [] && Quiet(plan)
    ensures Attempts(RunPlan(w, plan, n).log) == []
    decreases plan
  {
    if plan.Then? && n != 0 {
      AttemptsStep(w.log, plan.effect);
      NoAttemptsStayNone(Apply(w, plan.effect), plan.rest, n - 1);
    }
  }

  lemma SuccessTailIsQuiet(c: Grant, now: nat, reply: Reply)
    requires RefreshOutcome(c, reply).Ok?
    ensures Quiet(RecordReply(c, false, now, reply).rest)
  {
  }

  lemma DueIsPatient(c: Grant, times: seq<nat>, clock: nat, now: nat)
    requires Due(c, false, now) && clock <= now
    requires Earliest(times) <= clock || (c.nextRetryAt.Some? && Earliest(times) <= c.nextRetryAt.value)
    ensures Earliest(times) <= now
  {
  }

  /** The wait is over. */
  ghost predicate Patient(w: World, now: nat) {
    && w.slot.canonical.Some?
    && var c := w.slot.canonical.value; var times := Attempts(w.log);
       Spaced(times) && Earliest(times) <= now && (|times| <= c.failures || 3 <= c.failures)
  }

  lemma SentIsAttempted(w: World, now: nat)
    requires Patient(w, now) && w.slot.canonical.value.inFlight
    ensures Attempted(Apply(w, Send(w.slot.canonical.value.refreshToken, now)), now, true)
  {
    AttemptsStep(w.log, Send(w.slot.canonical.value.refreshToken, now));
    SpacedExtends(Attempts(w.log), now);
  }

  /** The request, if one can be made, and its record, after the intent was saved. */
  lemma SendKeepsPace(w: World, now: nat, reply: Reply, n: nat)
    requires Patient(w, now) && w.slot.canonical.value.inFlight
    ensures var c := w.slot.canonical.value;
            var recorded := RecordReply(c, false, now, reply);
            Paced(RunPlan(w, if reply.NoClient? then recorded else Then(Send(c.refreshToken, now), recorded), n), now)
  {
    if reply.NoClient? {
      RecordKeepsPace(w, now, reply, n);
    } else if n != 0 {
      var c := w.slot.canonical.value;
      var recorded := RecordReply(c, false, now, reply);
      var w2 := Apply(w, Send(c.refreshToken, now));
      SentIsAttempted(w, now);
      RecordKeepsPace(w2, now, reply, n - 1);
      assert RunPlan(w, Then(Send(c.refreshToken, now), recorded), n) == RunPlan(w2, recorded, n - 1);
    }
  }

  lemma IntentIsPatient(w: World, now: nat)
    requires Patient(w, now)
    ensures Patient(Apply(w, SaveIntent(w.slot.canonical.value.(inFlight := true))), now)
  {
    AttemptsStep(w.log, SaveIntent(w.slot.canonical.value.(inFlight := true)));
  }

  lemma RequestStarts(w: World, c: Grant, now: nat, reply: Reply, n: nat)
    requires 0 < n
    ensures var flying := c.(inFlight := true);
            var recorded := RecordReply(flying, false, now, reply);
            RunPlan(w, RequestPlan(c, false, now, reply), n) ==
              RunPlan(Apply(w, SaveIntent(flying)),
                      if reply.NoClient? then recorded else Then(Send(flying.refreshToken, now), recorded), n - 1)
  {
  }

  /** A request made once the wait is over keeps the pace. */
  lemma RequestKeepsPace(w: World, now: nat, reply: Reply, n: nat)
    requires Patient(w, now) && Paced(w, now)
    ensures Paced(RunPlan(w, RequestPlan(w.slot.canonical.value, false, now, reply), n), now)
  {
    if n != 0 {
      IntentIsPatient(w, now);
      SendKeepsPace(Apply(w, SaveIntent(w.slot.canonical.value.(inFlight := true))), now, reply, n - 1);
      RequestStarts(w, w.slot.canonical.value, now, reply, n);
    }
  }

  lemma StepKeepsPace(w: World, key: string, ev: Event, clock: nat)
    requires Paced(w, clock) && Keyed(w, key) && HonestCall(w, key, ev) && Scheduled(ev, clock)
    ensures Paced(Step(w, key, ev), Clock(ev, clock))
  {
    if ev.Perform? {
      var plan := PlanOf(w, key, ev.call);
      CallsAreLawful(w, key, ev.call, ev.steps);
      if ev.call.Refresh? && plan.Then? && plan.effect.SaveIntent? {
        DueIsPatient(w.slot.canonical.value, Attempts(w.log), clock, ev.call.now);
        RequestKeepsPace(w, ev.call.now, ev.call.reply, ev.steps);
      } else {
        OtherCallsAreQuiet(w, key, ev.call);
        assert Paced(w, Clock(ev, clock));
        QuietPlanKeepsPace(w, key, plan, ev.steps, Clock(ev, clock));
      }
    }
  }

  lemma {:induction false} RunKeepsPace(w: World, key: string, evs: seq<Event>, clock: nat)
    requires Paced(w, clock) && Keyed(w, key) && HonestCallRun(w, key, evs) && ScheduledRun(evs, clock)
    ensures Spaced(Attempts(Run(w, key, evs).log))
    decreases |evs|
  {
    if evs != [] {
      var ev := evs[0];
      StepKeepsPace(w, key, ev, clock);
      if ev.Perform? {
        CallsAreLawful(w, key, ev.call, ev.steps);
        PlanKeepsKey(w, key, PlanOf(w, key, ev.call), ev.steps);
      }
      RunKeepsPace(Step(w, key, ev), key, evs[1..], Clock(ev, clock));
    }
  }

  lemma {:induction false} SpacedAddsUp(times: seq<nat>, i: nat)
    requires Spaced(times) && 2 <= i < |times|
    ensures times[0] + 4500 + 21600 * (i - 2) <= times[i]
    decreases i
  {
    assert times[0] + Delay(1) <= times[1] && times[1] + Delay(2) <= times[2];
    if 2 < i {
      SpacedAddsUp(times, i - 1);
      assert times[i - 1] + Delay(i - 1 + 1) <= times[i];
    }
  }

  /** In every run without forced refreshes and with a clock that does not go back, and
      whatever else is called or cut off, token requests since the last success or import
      are at least 900, 3600 and then 21600 seconds apart. */
  lemma SchedulerWaitsBetweenRequests(w: World, key: string, evs: seq<Event>, clock: nat)
    requires w.slot == Slot(None, None) && w.log == []
    requires HonestCallRun(w, key, evs) && ScheduledRun(evs, clock)
    ensures var times := Attempts(Run(w, key, evs).log);
            && Spaced(times)
            && forall i | 2 <= i < |times| :: times[0] + 4500 + 21600 * (i - 2) <= times[i]
  {
    RunKeepsPace(w, key, evs, clock);
    var times := Attempts(Run(w, key, evs).log);
    forall i | 2 <= i < |times|
      ensures times[0] + 4500 + 21600 * (i - 2) <= times[i]
    {
      SpacedAddsUp(times, i);
    }
  }

  // ----- The same in every interleaving -----

  predicate ScheduledCall(call: Call, clock: nat) {
    call.Refresh? ==> !call.force && clock <= call.now
  }

  predicate ScheduledCalls(calls: seq<Call>, clock: nat)
    decreases |calls|
  {
    calls != [] ==>
      && ScheduledCall(calls[0], clock)
      && ScheduledCalls(calls[1..], if calls[0].Refresh? then calls[0].now else clock)
  }

  lemma {:induction false} CallsOfFront(ev: Event, evs: seq<Event>)
    ensures CallsOf([ev] + evs) == (if ev.Perform? then [Asked(ev.call)] else []) + CallsOf(evs)
    decreases |evs|
  {
    var all := [ev] + evs;
    if evs == [] {
      assert all[..|all| - 1] == [];
    } else {
      assert all[..|all| - 1] == [ev] + evs[..|evs| - 1];
      CallsOfFront(ev, evs[..|evs| - 1]);
    }
  }

  lemma {:induction false} ScheduledByItsCalls(evs: seq<Event>, clock: nat)
    requires ScheduledCalls(CallsOf(evs), clock)
    ensures ScheduledRun(evs, clock)
    decreases |evs|
  {
    if evs != [] {
      assert evs == [evs[0]] + evs[1..];
      CallsOfFront(evs[0], evs[1..]);
      assert CallsOf(evs)[if evs[0].Perform? then 1 else 0..] == CallsOf(evs[1..]);
      ScheduledByItsCalls(evs[1..], Clock(evs[0], clock));
    }
  }

  /** Whatever happens to the directory between a call's steps, and wherever calls stop. */
  lemma SchedulerWaitsInEveryInterleaving(w: World, key: string, moves: seq<Move>, clock: nat)
    requires w.slot == Slot(None, None) && w.log == []
    requires HonestStarts(Idle(w), key, moves) && ScheduledCalls(Started(Idle(w), key, moves), clock)
    ensures var times := Attempts(MoveAll(Idle(w), key, moves).w.log);
            && Spaced(times)
            && forall i | 2 <= i < |times| :: times[0] + 4500 + 21600 * (i - 2) <= times[i]
  {
    var evs := InterleavedRunIsARun(w, key, moves);
    ScheduledByItsCalls(evs, clock);
    SchedulerWaitsBetweenRequests(w, key, evs, clock);
  }
}
