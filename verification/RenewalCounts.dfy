/** What the renewal counters count. */
module RenewalCounts {
  import opened Basics
  import opened Grants
  import opened BrokerPlans
  import opened BrokerRuns

  function Counters(g: Grant): (nat, nat) {
    (g.refreshCount, g.automaticRefreshCount)
  }

  /** The counters of a renewal of `c`: one more in all, and one more automatic one unless
      it was forced. */
  function Renewed(c: Grant, force: bool): (nat, nat) {
    (c.refreshCount + 1, c.automaticRefreshCount + (if force then 0 else 1))
  }

  /** `g` is `c`'s generation with `c`'s counters, or the next one counted as a renewal. */
  predicate Tallied(g: Grant, c: Grant, force: bool) {
    || (g.generation == c.generation && Counters(g) == Counters(c))
    || (g.generation == c.generation + 1 && Counters(g) == Renewed(c, force))
  }

  predicate TalliedStep(e: Effect, c: Grant, force: bool) {
    match e
    case SaveJournal(j) => j.generation == c.generation + 1 && Counters(j) == Renewed(c, force)
    case Promote(g) => Tallied(g, c, force)
    case SaveIntent(g) => g.generation == c.generation && Counters(g) == Counters(c)
    case SaveFailure(g) => g.generation == c.generation && Counters(g) == Counters(c)
    case Amend(g) => g.generation == c.generation && Counters(g) == Counters(c)
    case InstallImport(g) => false
    case _ => true
  }

  predicate AllTallied(plan: Plan, c: Grant, force: bool)
    decreases plan
  {
    plan.Then? ==> TalliedStep(plan.effect, c, force) && AllTallied(plan.rest, c, force)
  }

  predicate Renews(plan: Plan)
    decreases plan
  {
    plan.Then? && (plan.effect.SaveJournal? || plan.effect.Promote? || Renews(plan.rest))
  }

  lemma {:induction false} TalliedPlan(w: World, plan: Plan, n: nat, c: Grant, force: bool)
    requires AllTallied(plan, c, force) && w.slot.canonical.Some? && Tallied(w.slot.canonical.value, c, force)
    requires w.slot.journal.Some? ==> Counters(w.slot.journal.value) == Renewed(c, force)
    ensures var slot := RunPlan(w, plan, n).slot;
            && slot.canonical.Some? && Tallied(slot.canonical.value, c, force)
            && (slot.journal.Some? ==> Counters(slot.journal.value) == Renewed(c, force))
    ensures !Renews(plan) && Counters(w.slot.canonical.value) == Counters(c) ==>
              Counters(RunPlan(w, plan, n).slot.canonical.value) == Counters(c)
    decreases plan
  {
    if plan.Then? && n != 0 {
      TalliedPlan(Apply(w, plan.effect), plan.rest, n - 1, c, force);
    }
  }

  lemma RecordTallies(c: Grant, force: bool, now: nat, reply: Reply)
    ensures AllTallied(RecordReply(c, force, now, reply), c, force)
    ensures RefreshOutcome(c, reply).Err? ==> !Renews(RecordReply(c, force, now, reply))
  {
    var plan := RecordReply(c, force, now, reply);
    if plan.rest.Then? {
      assert AllTallied(plan.rest.rest.rest, c, force);
      assert AllTallied(plan.rest.rest, c, force);
      assert AllTallied(plan.rest, c, force);
    }
  }

  lemma {:induction false} TalliedAlike(plan: Plan, a: Grant, b: Grant, force: bool)
    requires AllTallied(plan, a, force) && a.generation == b.generation && Counters(a) == Counters(b)
    ensures AllTallied(plan, b, force)
    decreases plan
  {
    if plan.Then? {
      TalliedAlike(plan.rest, a, b, force);
    }
  }

  /** A refresh with nothing to recover, cut off anywhere: the counters move only together
      with the generation, by one renewal, which is automatic unless forced; the journal it
      may leave carries the new counts; and a request that fails counts nothing. */
  lemma RenewalIsCountedOnce(w: World, key: string, force: bool, now: nat, reply: Reply, n: nat)
    requires w.slot.canonical.Some? && w.slot.journal.None?
    ensures var c := w.slot.canonical.value;
            var slot := Step(w, key, Perform(Refresh(force, now, reply), n)).slot;
            && slot.canonical.Some? && Tallied(slot.canonical.value, c, force)
            && (slot.journal.Some? ==> Counters(slot.journal.value) == Renewed(c, force))
            && (RefreshOutcome(c.(inFlight := true), reply).Err? ==> Counters(slot.canonical.value) == Counters(c))
  {
    var c := w.slot.canonical.value;
    var flying := c.(inFlight := true);
    var plan := PlanOf(w, key, Refresh(force, now, reply));
    if plan.Then? && plan.effect.SaveIntent? {
      RecordTallies(flying, force, now, reply);
      var recorded := RecordReply(flying, force, now, reply);
      TalliedAlike(recorded, flying, c, force);
      assert plan.rest == if reply.NoClient? then recorded else Then(Send(c.refreshToken, now), recorded);
      assert AllTallied(plan.rest, c, force);
      assert Renews(recorded) || !Renews(plan.rest);
    }
    TalliedPlan(w, plan, n, c, force);
  }

  predicate CountsAlike(plan: Plan, c: Grant)
    decreases plan
  {
    plan.Then? ==>
      && !plan.effect.SaveJournal? && (plan.effect.SavesCanonical() ==> Counters(plan.effect.grant) == Counters(c))
      && CountsAlike(plan.rest, c)
  }

  lemma {:induction false} PrependCountsAlike(steps: seq<Effect>, plan: Plan, c: Grant)
    requires CountsAlike(plan, c) && forall e | e in steps :: e.CpaRename? || e.CpaWrite?
    ensures CountsAlike(Prepend(steps, plan), c)
    decreases |steps|
  {
    if steps != [] {
      assert steps[0] in steps && forall e | e in steps[1..] :: e in steps;
      PrependCountsAlike(steps[1..], plan, c);
    }
  }

  lemma {:induction false} CountedAlike(w: World, plan: Plan, n: nat, c: Grant)
    requires CountsAlike(plan, c) && w.slot.canonical.Some? && Counters(w.slot.canonical.value) == Counters(c)
    ensures RunPlan(w, plan, n).slot.canonical.Some? && Counters(RunPlan(w, plan, n).slot.canonical.value) == Counters(c)
    decreases plan
  {
    if plan.Then? && n != 0 {
      CountedAlike(Apply(w, plan.effect), plan.rest, n - 1, c);
    }
  }

  /** Reauthorization keeps the totals, and settings, acknowledgements and consumer syncs
      leave them alone. */
  lemma NothingElseCounts(w: World, key: string, call: Call, n: nat)
    requires w.slot.canonical.Some? && !call.Refresh?
    ensures var slot := Step(w, key, Perform(call, n)).slot;
            slot.canonical.Some? && Counters(slot.canonical.value) == Counters(w.slot.canonical.value)
  {
    var c := w.slot.canonical.value;
    var plan := PlanOf(w, key, call);
    match call {
      case Import(_, _) =>
        if plan.Then? && plan.rest.Then? {
          assert CountsAlike(plan.rest.rest, c);
          assert CountsAlike(plan.rest, c);
        }
      case Sync(dir, now, fault) =>
        if plan.Then? && !c.Blocked() {
          var work := ProjectWork(w.cpa, key, c, dir, now, fault);
          FileStepsOnly(w.cpa, key, c, dir, now, fault);
          assert CountsAlike(FinishSync(c, work.error), c);
          PrependCountsAlike(work.steps, FinishSync(c, work.error), c);
        }
      case SetCpa(_, _) =>
      case Acknowledge(_) =>
      case Refresh(_, _, _) =>
    }
    CountedAlike(w, plan, n, c);
  }

  /** Recovering a journal adopts the counts saved in it, and recovering it again, after a
      crash between the two steps, adds nothing. */
  lemma RecoveryCountsOnce(w: World, key: string, force: bool, now: nat, reply: Reply, n: nat)
    requires w.slot.canonical.Some? && w.slot.canonical.value.error != Some(ReauthRequired)
    requires w.slot.journal.Some? && w.slot.journal.value.error.None?
    requires SameIdentity(w.slot.canonical.value, w.slot.journal.value)
    requires w.slot.canonical.value.generation <= w.slot.journal.value.generation
    ensures var j := w.slot.journal.value;
            var w' := Step(w, key, Perform(Refresh(force, now, reply), n));
            && w'.slot.canonical == (if n == 0 then w.slot.canonical else Some(j.(inFlight := false)))
            && (n == 1 ==> Step(w', key, Perform(Refresh(force, now, reply), 2)).slot == Slot(w'.slot.canonical, None))
  {
    var plan := PlanOf(w, key, Refresh(force, now, reply));
    var w1 := Apply(w, plan.effect);
    TwoSteps(w, plan, n);
    if n == 1 {
      TwoSteps(w1, PlanOf(w1, key, Refresh(force, now, reply)), 2);
    }
  }

  lemma TwoSteps(w: World, plan: Plan, n: nat)
    requires plan.Then? && plan.rest.Then? && plan.rest.rest.Return?
    ensures RunPlan(w, plan, n) ==
              if n == 0 then w
              else if n == 1 then Apply(w, plan.effect)
              else Apply(Apply(w, plan.effect), plan.rest.effect)
  {
    if n != 0 {
      var w1 := Apply(w, plan.effect);
      assert RunPlan(w, plan, n) == RunPlan(w1, plan.rest, n - 1);
      if n != 1 {
        assert RunPlan(w1, plan.rest, n - 1) == RunPlan(Apply(w1, plan.rest.effect), plan.rest.rest, n - 2);
      }
    }
  }
}
