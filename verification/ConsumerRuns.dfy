/** Runs from an empty store in which a switched-off consumer comes on again, and in which a
    suspension is forgotten. */
module ConsumerRuns {
  import opened Basics
  import opened Grants
  import opened CpaDirectory
  import opened BrokerPlans
  import opened BrokerRuns
  import opened BrokerTheorems

  const SWITCH_ON := Perform(SetCpa(true, true), 1)
  const SWITCH_OFF := Perform(SetCpa(false, true), 1)

  const FILE := "e.json"
  const FIRST_SYNC := Perform(Sync(Listed([]), 1, NoFault), 2)
  const GARBLED := Outside(map[FILE := Garbage])
  const REFUSED_SYNC := Perform(Sync(Listed([FILE]), 2, NoFault), 1)
  const DELETED := Outside(map[])

  lemma OneMore(w: World, key: string, evs: seq<Event>, ev: Event)
    requires HonestRun(w, key, evs) && Honest(Run(w, key, evs), key, ev)
    ensures Run(w, key, evs + [ev]) == Step(Run(w, key, evs), key, ev) && HonestRun(w, key, evs + [ev])
  {
    RunJoins(w, key, evs, [ev]);
    var w' := Run(w, key, evs);
    assert [ev][1..] == [] && Run(w', key, [ev]) == Run(Step(w', key, ev), key, []);
    assert HonestRun(Step(w', key, ev), key, []);
  }

  lemma FirstStep(w: World, plan: Plan)
    requires plan.Then?
    ensures RunPlan(w, plan, 1) == Apply(w, plan.effect)
  {
    assert RunPlan(Apply(w, plan.effect), plan.rest, 0) == Apply(w, plan.effect);
  }

  lemma SecondStep(w: World, plan: Plan)
    requires plan.Then? && plan.rest.Then?
    ensures RunPlan(w, plan, 2) == Apply(Apply(w, plan.effect), plan.rest.effect)
  {
    FirstStep(Apply(w, plan.effect), plan.rest);
  }

  // ----- Common beginning -----

  /** The grant after the account was imported and the consumer switched on. */
  function Enabled(g: Grant): Grant {
    g.(cpaEnabled := true, cpaSyncSuspended := false, cpaSyncedGeneration := None, cpaSyncError := None)
  }

  lemma AfterSwitch(w: World, g: Grant, on: bool)
    requires w.slot.canonical == Some(g) && (on ==> !g.Blocked())
    ensures Step(w, "k", Perform(SetCpa(on, true), 1)) ==
              Apply(w, Amend(if on then Enabled(g) else g.(cpaEnabled := false, cpaSyncSuspended := false)))
  {
    FirstStep(w, PlanOf(w, "k", SetCpa(on, true)));
  }

  /** What the runs below need to know of the account. */
  predicate Newcomer(g: Grant) {
    && !g.Blocked() && g.key == "k" && g.email == "e" && g.accountId == "a" && g.refreshToken == "r0"
    && g.idToken.claims.Some? && g.generation == 1 && g.expiresAt == 1000 && Enabled(g) == g
  }

  /** An imported account with its consumer switched on, next to an empty directory. */
  lemma Begin() returns (g: Grant)
    ensures var evs := [FIRST_IMPORT, SWITCH_ON]; var w := Run(NOTHING, "k", evs);
            && HonestRun(NOTHING, "k", evs) && Newcomer(g)
            && w.slot == Slot(Some(g), None) && w.cpa == map[] && SentTokens(w.log) == {}
  {
    AfterFirstImport();
    var evs: seq<Event> := [];
    OneMore(NOTHING, "k", evs, FIRST_IMPORT);
    assert evs + [FIRST_IMPORT] == [FIRST_IMPORT];
    var w1 := Step(NOTHING, "k", FIRST_IMPORT);
    var imported := w1.slot.canonical.value;
    AfterSwitch(w1, imported, true);
    OneMore(NOTHING, "k", [FIRST_IMPORT], SWITCH_ON);
    assert [FIRST_IMPORT] + [SWITCH_ON] == [FIRST_IMPORT, SWITCH_ON];
    g := Enabled(imported);
  }

  // ----- The switch comes back -----

  lemma Recovered(w: World, force: bool, now: nat, reply: Reply)
    requires w.slot.canonical.Some? && w.slot.journal.Some?
    requires var c, j := w.slot.canonical.value, w.slot.journal.value;
             SameIdentity(c, j) && c.generation <= j.generation && c.error != Some(ReauthRequired)
    ensures Step(w, "k", Perform(Refresh(force, now, reply), 2)).slot ==
              Slot(Some(w.slot.journal.value.(inFlight := false)), None)
  {
    SecondStep(w, PlanOf(w, "k", Refresh(force, now, reply)));
  }

  /** The consumer is switched on; a refresh is cut off after its journal write; the consumer
      is switched off; and the next refresh, forced or not, switches it on again. */
  lemma SwitchComesBack(force: bool, now: nat, reply: Reply)
    ensures var evs := [FIRST_IMPORT, SWITCH_ON, LOST_REFRESH, SWITCH_OFF];
            var w := Run(NOTHING, "k", evs);
            var w' := Step(w, "k", Perform(Refresh(force, now, reply), 2));
            && HonestRun(NOTHING, "k", evs)
            && w.slot.canonical.Some? && !w.slot.canonical.value.cpaEnabled
            && w'.slot.canonical.Some? && w'.slot.canonical.value.cpaEnabled && w'.slot.journal.None?
  {
    var g := Begin();
    var evs := [FIRST_IMPORT, SWITCH_ON];
    var w2 := Run(NOTHING, "k", evs);
    AfterLostRefresh(w2, g);
    OneMore(NOTHING, "k", evs, LOST_REFRESH);
    var w3 := Step(w2, "k", LOST_REFRESH);
    AfterSwitch(w3, g.(inFlight := true), false);
    OneMore(NOTHING, "k", evs + [LOST_REFRESH], SWITCH_OFF);
    assert evs + [LOST_REFRESH] + [SWITCH_OFF] == [FIRST_IMPORT, SWITCH_ON, LOST_REFRESH, SWITCH_OFF];
    Recovered(Step(w3, "k", SWITCH_OFF), force, now, reply);
  }

  // ----- A suspension is forgotten -----

  lemma NameOfTheFile(g: Grant)
    requires g.email == "e"
    ensures CanonicalName(g, "k") == FILE
  {
    assert FilterStem("e"[1..]) == [];
    assert FilterStem("e") == "e" && "e" + ".json" == FILE;
  }

  /** Next to an empty directory the account's file is written and recorded as synced. */
  lemma AfterFirstSync(w: World, g: Grant)
    requires w.slot.canonical == Some(g) && w.cpa == map[] && Newcomer(g)
    ensures var w' := Step(w, "k", FIRST_SYNC);
            && w'.slot.canonical == Some(g.(cpaSyncedGeneration := Some(1)))
            && w'.cpa == map[FILE := Doc(Projection(g))]
  {
    var call := FIRST_SYNC.call;
    NameOfTheFile(g);
    var write := CpaWrite(FILE, Projection(g));
    var plan := PlanOf(w, "k", call);
    assert [] + [write] == [write] && [write][1..] == [];
    assert ProjectWork(w.cpa, "k", g, Listed([]), 1, NoFault) == FileWork([write], None);
    var finish := FinishSync(g, None);
    assert Prepend([write][1..], finish) == finish;
    assert plan == Prepend([write], finish) == Then(write, finish);
    SecondStep(w, plan);
  }

  /** The file has become unreadable to the Broker: the conflict is recorded. */
  lemma AfterRefusedSync(w: World, g: Grant)
    requires w.slot.canonical == Some(g) && w.cpa == GARBLED.cpa && Newcomer(Enabled(g)) && Projects(g)
    requires g.cpaSyncedGeneration == Some(1) && g.cpaSyncError.None?
    ensures var w' := Step(w, "k", REFUSED_SYNC);
            w'.slot.canonical == Some(g.(cpaSyncError := Some(ConsumerConflict))) && w'.cpa == w.cpa
  {
    NameOfTheFile(g);
    assert Judge(FILE, w.cpa, "k", g) == Stop(ConsumerConflict);
    var plan := PlanOf(w, "k", REFUSED_SYNC.call);
    assert plan == FinishSync(g, Some(ConsumerConflict));
    FirstStep(w, plan);
  }

  /** With the conflict on record, the deletion goes unrecorded. */
  lemma AfterDeletion(w: World, g: Grant, now: nat)
    requires w.slot.canonical == Some(g) && w.cpa == map[] && Projects(g)
    requires g.cpaSyncedGeneration.Some? && g.cpaSyncError == Some(ConsumerConflict)
    ensures PlanOf(w, "k", Sync(Listed([]), now, NoFault)) == Return(Ok(g.(cpaEnabled := false, cpaSyncSuspended := true)))
  {
    assert PlanOf(w, "k", Sync(Listed([]), now, NoFault)) == FinishSync(g, Some(ConsumerMissing));
  }

  /** The account's file is synced, and then turns into garbage. */
  lemma SyncedAndGarbled() returns (g: Grant)
    ensures var evs := [FIRST_IMPORT, SWITCH_ON, FIRST_SYNC, GARBLED]; var w := Run(NOTHING, "k", evs);
            && HonestRun(NOTHING, "k", evs) && Newcomer(Enabled(g)) && Projects(g)
            && w.slot.canonical == Some(g) && w.cpa == GARBLED.cpa
            && g.cpaSyncedGeneration == Some(1) && g.cpaSyncError.None?
  {
    var first := Begin();
    var evs := [FIRST_IMPORT, SWITCH_ON];
    AfterFirstSync(Run(NOTHING, "k", evs), first);
    OneMore(NOTHING, "k", evs, FIRST_SYNC);
    OneMore(NOTHING, "k", evs + [FIRST_SYNC], GARBLED);
    assert evs + [FIRST_SYNC] + [GARBLED] == [FIRST_IMPORT, SWITCH_ON, FIRST_SYNC, GARBLED];
    g := first.(cpaSyncedGeneration := Some(1));
  }

  /** A synced file turns into garbage, which a sync records as a conflict, and is deleted. The
      next sync answers that the consumer is suspended and saves nothing, so that the consumer
      stays on and a file put back would be synced again. */
  lemma SuspensionIsForgotten(now: nat, n: nat)
    ensures var evs := [FIRST_IMPORT, SWITCH_ON, FIRST_SYNC, GARBLED, REFUSED_SYNC, DELETED];
            var w := Run(NOTHING, "k", evs);
            var sync := Sync(Listed([]), now, NoFault);
            var answer := Answer(PlanOf(w, "k", sync), n);
            && HonestRun(NOTHING, "k", evs)
            && answer.Ok? && answer.value.cpaSyncSuspended && !answer.value.cpaEnabled
            && Step(w, "k", Perform(sync, n)) == w
            && w.slot.canonical.Some? && Projects(w.slot.canonical.value)
  {
    var g := SyncedAndGarbled();
    var evs := [FIRST_IMPORT, SWITCH_ON, FIRST_SYNC, GARBLED];
    AfterRefusedSync(Run(NOTHING, "k", evs), g);
    OneMore(NOTHING, "k", evs, REFUSED_SYNC);
    OneMore(NOTHING, "k", evs + [REFUSED_SYNC], DELETED);
    assert evs + [REFUSED_SYNC] + [DELETED] == [FIRST_IMPORT, SWITCH_ON, FIRST_SYNC, GARBLED, REFUSED_SYNC, DELETED];
    AfterDeletion(Run(NOTHING, "k", evs + [REFUSED_SYNC] + [DELETED]), g.(cpaSyncError := Some(ConsumerConflict)), now);
  }
}
