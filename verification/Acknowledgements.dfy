/** What a consumer acknowledged is never ahead of the grant. */
module Acknowledgements {
  import opened Basics
  import opened Grants
  import opened BrokerPlans
  import opened BrokerRuns

  predicate Reached(g: Grant) {
    g.cockpitSyncedGeneration.Some? ==> g.cockpitSyncedGeneration.value <= g.generation
  }

  predicate AllReached(w: World) {
    (w.slot.canonical.Some? ==> Reached(w.slot.canonical.value)) && (w.slot.journal.Some? ==> Reached(w.slot.journal.value))
  }

  predicate SavesReached(plan: Plan)
    decreases plan
  {
    plan.Then? ==>
      && (plan.effect.SavesCanonical() || plan.effect.SaveJournal? ==> Reached(plan.effect.grant))
      && SavesReached(plan.rest)
  }

  lemma {:induction false} PlanReaches(w: World, plan: Plan, n: nat)
    requires AllReached(w) && SavesReached(plan)
    ensures AllReached(RunPlan(w, plan, n))
    decreases plan
  {
    if plan.Then? && n != 0 {
      PlanReaches(Apply(w, plan.effect), plan.rest, n - 1);
    }
  }

  lemma {:induction false} PrependReaches(steps: seq<Effect>, plan: Plan)
    requires SavesReached(plan) && forall e | e in steps :: e.CpaRename? || e.CpaWrite?
    ensures SavesReached(Prepend(steps, plan))
    decreases |steps|
  {
    if steps != [] {
      assert steps[0] in steps && forall e | e in steps[1..] :: e in steps;
      PrependReaches(steps[1..], plan);
    }
  }

  lemma RecordReaches(c: Grant, force: bool, now: nat, reply: Reply)
    requires Reached(c)
    ensures SavesReached(RecordReply(c, force, now, reply))
  {
    var plan := RecordReply(c, force, now, reply);
    if plan.rest.Then? {
      assert SavesReached(plan.rest.rest.rest);
      assert SavesReached(plan.rest.rest);
      assert SavesReached(plan.rest);
    }
  }

  lemma RefreshReaches(slot: Slot, force: bool, now: nat, reply: Reply)
    requires AllReached(World(slot, map[], []))
    ensures SavesReached(RefreshPlan(slot, force, now, reply))
  {
    var plan := RefreshPlan(slot, force, now, reply);
    if plan.Then? && plan.effect.SaveIntent? {
      var recorded := RecordReply(plan.effect.grant, force, now, reply);
      RecordReaches(plan.effect.grant, force, now, reply);
      assert plan.rest == if reply.NoClient? then recorded else Then(Send(plan.effect.grant.refreshToken, now), recorded);
    } else if plan.Then? && plan.rest.Then? {
      assert SavesReached(plan.rest.rest);
    }
  }

  lemma FinishReaches(g: Grant, error: Option<Error>)
    requires Reached(g)
    ensures SavesReached(FinishSync(g, error))
  {
  }

  lemma SyncReaches(w: World, key: string, dir: DirectoryState, now: nat, fault: Fault)
    requires AllReached(w)
    ensures SavesReached(SyncPlan(w.slot, w.cpa, key, dir, now, fault))
  {
    var plan := SyncPlan(w.slot, w.cpa, key, dir, now, fault);
    if plan.Then? && Projects(w.slot.canonical.value) {
      var g := w.slot.canonical.value;
      var work := ProjectWork(w.cpa, key, g, dir, now, fault);
      FileStepsOnly(w.cpa, key, g, dir, now, fault);
      FinishReaches(g, work.error);
      PrependReaches(work.steps, FinishSync(g, work.error));
    }
  }

  lemma CallReaches(w: World, key: string, call: Call)
    requires AllReached(w)
    ensures SavesReached(PlanOf(w, key, call))
  {
    match call {
      case Refresh(force, now, reply) => RefreshReaches(w.slot, force, now, reply);
      case Sync(dir, now, fault) => SyncReaches(w, key, dir, now, fault);
      case Import(_, _) =>
        var plan := PlanOf(w, key, call);
        if plan.Then? && plan.rest.Then? {
          assert SavesReached(plan.rest.rest);
        }
      case SetCpa(_, _) =>
      case Acknowledge(_) =>
    }
  }

  /** In every run, cut off anywhere, an acknowledged generation is one the grant reached:
      acknowledgements of other generations are refused, and no recovery or import goes back
      behind one. */
  lemma {:induction false} AcknowledgedIsNeverAhead(w: World, key: string, evs: seq<Event>)
    requires AllReached(w)
    ensures AllReached(Run(w, key, evs))
    decreases |evs|
  {
    if evs != [] {
      var ev := evs[0];
      if ev.Perform? {
        CallReaches(w, key, ev.call);
        PlanReaches(w, PlanOf(w, key, ev.call), ev.steps);
      }
      AcknowledgedIsNeverAhead(Step(w, key, ev), key, evs[1..]);
    }
  }
}
