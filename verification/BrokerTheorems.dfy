/** The Broker's promises, over every run from an empty store. Only the one about the
    consumer's file asks anything of what others do to the directory. */
module BrokerTheorems {
  import opened Basics
  import opened Grants
  import opened CpaDirectory
  import opened BrokerPlans
  import opened BrokerRuns
  import opened BrokerSafety

  // ----- Direct consequences of the invariants -----

  /** No run sends a refresh token again while the outcome of an earlier request carrying
      it is unknown. */
  lemma UnknownOutcomeIsNeverRetried(w: World, key: string, evs: seq<Event>)
    requires Empty(w) && HonestCallRun(w, key, evs)
    ensures NeverResent(Run(w, key, evs).log)
  {
    EmptyIsSafe(w, key);
    RunsKeepCore(w, key, evs);
  }

  /** When the newest credential is a rotation whose journal write completed, some file
      still holds it, wherever the run was cut off. */
  lemma RotatedCredentialSurvives(w: World, key: string, evs: seq<Event>)
    requires Empty(w) && HonestCallRun(w, key, evs)
    ensures var w' := Run(w, key, evs);
            Newest(w'.log).Some? && Newest(w'.log).value.SaveJournal? ==>
              var born := Newest(w'.log).value.grant;
              || w'.slot.journal == Some(born)
              || (w'.slot.canonical.Some? && SameCredential(w'.slot.canonical.value, born))
  {
    EmptyIsSafe(w, key);
    RunsKeepCore(w, key, evs);
  }

  /** Generations only go forward, in the grant file and in the consumer's file alike, and
      the refresh counters stay below the generation. */
  lemma GenerationsGoForward(w: World, key: string, evs: seq<Event>)
    requires Empty(w) && HonestCallRun(w, key, evs)
    ensures var w' := Run(w, key, evs);
            Ascending(w'.log) && (w'.slot.canonical.Some? ==> CountersFit(w'.slot.canonical.value))
  {
    EmptyIsSafe(w, key);
    RunsKeepCore(w, key, evs);
  }

  /** The consumer never has two files of one account, and once the current generation
      counts as synced, whatever file is there holds the current access credential. */
  lemma ConsumerFileIsCurrent(w: World, key: string, evs: seq<Event>)
    requires Fresh(w, key) && HonestRun(w, key, evs)
    ensures var w' := Run(w, key, evs);
            && AtMostOneOwnFile(w'.cpa, key)
            && (w'.slot.canonical.Some? &&
                w'.slot.canonical.value.cpaSyncedGeneration == Some(w'.slot.canonical.value.generation) ==>
                  FilesCurrent(w'.cpa, key, w'.slot.canonical.value))
  {
    FreshIsSafe(w, key);
    RunsKeepInv(w, key, evs);
  }

  // ----- The account never changes hands -----

  lemma StepKeepsIdentity(w: World, key: string, e: Effect)
    requires w.slot.canonical.Some? && Legal(w, key, e)
    ensures var w' := Apply(w, e);
            w'.slot.canonical.Some? && SameIdentity(w.slot.canonical.value, w'.slot.canonical.value)
  {
    if e.SaveIntent? || e.SaveFailure? || e.Amend? {
      NoteKeepsCounters(w, key, e);
    }
  }

  lemma {:induction false} PlanKeepsIdentity(w: World, key: string, plan: Plan, n: nat)
    requires w.slot.canonical.Some? && Lawful(w, key, plan)
    ensures var w' := RunPlan(w, plan, n);
            w'.slot.canonical.Some? && SameIdentity(w.slot.canonical.value, w'.slot.canonical.value)
    decreases plan
  {
    if plan.Then? && n != 0 {
      StepKeepsIdentity(w, key, plan.effect);
      PlanKeepsIdentity(Apply(w, plan.effect), key, plan.rest, n - 1);
    }
  }

  /** Over every run a grant, once there, stays there and keeps its account id, and its email
      address up to case: no import, recovery or rotation puts another account's credential in
      its place. */
  lemma {:induction false} IdentityNeverChanges(w: World, key: string, evs: seq<Event>)
    requires w.slot.canonical.Some? && Keyed(w, key) && HonestCallRun(w, key, evs)
    ensures var w' := Run(w, key, evs);
            w'.slot.canonical.Some? && SameIdentity(w.slot.canonical.value, w'.slot.canonical.value)
    decreases |evs|
  {
    if evs != [] {
      var ev := evs[0];
      if ev.Perform? {
        CallsAreLawful(w, key, ev.call, ev.steps);
        PlanKeepsIdentity(w, key, PlanOf(w, key, ev.call), ev.steps);
        PlanKeepsKey(w, key, PlanOf(w, key, ev.call), ev.steps);
      }
      IdentityNeverChanges(Step(w, key, ev), key, evs[1..]);
    }
  }

  // ----- A blocked account is inert -----

  /** No journal to recover from, and no token request allowed. */
  predicate Stuck(w: World) {
    w.slot.canonical.Some? && w.slot.journal.None? && w.slot.canonical.value.Blocked()
  }

  /** The event is an import that the store accepts as a new lineage. */
  predicate Admits(w: World, key: string, ev: Event) {
    ev.Perform? && ev.call.Import? && PlanOf(w, key, ev.call).Then?
  }

  predicate NoneAdmitted(w: World, key: string, evs: seq<Event>)
    decreases |evs|
  {
    evs != [] ==> !Admits(w, key, evs[0]) && NoneAdmitted(Step(w, key, evs[0]), key, evs[1..])
  }

  /** `after` continues `before` with bookkeeping only. */
  predicate OnlyAmended(before: World, after: World) {
    && Stuck(before) && Stuck(after)
    && SameCredential(before.slot.canonical.value, after.slot.canonical.value)
    && after.slot.canonical.value.error == before.slot.canonical.value.error
    && (after.slot.canonical.value.cpaEnabled ==> before.slot.canonical.value.cpaEnabled)
    && before.log <= after.log
    && forall i | |before.log| <= i < |after.log| :: after.log[i].Amend?
  }

  lemma StuckStep(w: World, key: string, ev: Event)
    requires Stuck(w) && !Admits(w, key, ev)
    ensures OnlyAmended(w, Step(w, key, ev))
    ensures ev.Perform? ==> Step(w, key, ev).cpa == w.cpa
  {
    if ev.Perform? {
      var plan := PlanOf(w, key, ev.call);
      StuckPlan(w, key, ev.call);
      if plan.Then? && ev.steps != 0 {
        assert RunPlan(w, plan, ev.steps) == Apply(w, plan.effect);
      }
    }
  }

  /** A stuck account's calls save at most one bookkeeping change. */
  lemma StuckPlan(w: World, key: string, call: Call)
    requires Stuck(w) && (call.Import? ==> PlanOf(w, key, call).Return?)
    ensures var plan := PlanOf(w, key, call); var c := w.slot.canonical.value;
            plan.Then? ==>
              && plan.effect.Amend? && plan.rest.Return?
              && SameCredential(c, plan.effect.grant) && plan.effect.grant.error == c.error && plan.effect.grant.Blocked()
              && (plan.effect.grant.cpaEnabled ==> c.cpaEnabled)
  {
  }

  /** An account with a recorded terminal outcome, or with a request of unknown outcome and
      no journal, makes no token request, writes no journal and no consumer file, keeps its
      error, and cannot have the consumer switched on, until an import of a new credential is
      accepted. */
  lemma {:induction false} BlockedAccountIsInert(w: World, key: string, evs: seq<Event>)
    requires Stuck(w) && NoneAdmitted(w, key, evs)
    ensures OnlyAmended(w, Run(w, key, evs))
    decreases |evs|
  {
    if evs != [] {
      StuckStep(w, key, evs[0]);
      BlockedAccountIsInert(Step(w, key, evs[0]), key, evs[1..]);
    }
  }

  /** In every run, recording a terminal outcome makes the account stuck. */
  lemma TerminalIsStuck(w: World, key: string, evs: seq<Event>)
    requires Empty(w) && HonestCallRun(w, key, evs)
    ensures var w' := Run(w, key, evs);
            w'.slot.canonical.Some? && w'.slot.canonical.value.Terminal() ==> Stuck(w')
  {
    EmptyIsSafe(w, key);
    RunsKeepCore(w, key, evs);
  }

  // ----- When a token request is made -----

  predicate Sends(plan: Plan)
    decreases plan
  {
    plan.Then? && (plan.effect.Send? || Sends(plan.rest))
  }

  lemma {:induction false} PrependSendsNothing(steps: seq<Effect>, plan: Plan)
    requires !Sends(plan) && forall e | e in steps :: !e.Send?
    ensures !Sends(Prepend(steps, plan))
    decreases |steps|
  {
    if steps != [] {
      PrependSendsNothing(steps[1..], plan);
    }
  }

  lemma RecordSendsNothing(c: Grant, force: bool, now: nat, reply: Reply)
    ensures !Sends(RecordReply(c, force, now, reply))
  {
    var plan := RecordReply(c, force, now, reply);
    if plan.rest.Then? {
      assert !Sends(plan.rest.rest.rest);
      assert !Sends(plan.rest.rest);
      assert !Sends(plan.rest);
    }
  }

  /** Of all calls only a refresh makes a token request, and it does so exactly when nothing
      is left to recover, nothing blocks the account, and it is forced or both the due time
      and any announced retry time have come. */
  lemma RequestIsMadeExactlyWhen(w: World, key: string, call: Call)
    ensures Sends(PlanOf(w, key, call)) <==>
              && call.Refresh? && !call.reply.NoClient?
              && w.slot.canonical.Some? && w.slot.journal.None?
              && var c := w.slot.canonical.value;
                 && !c.Blocked()
                 && (call.force || (c.DueAt() <= call.now && (c.nextRetryAt.Some? ==> c.nextRetryAt.value <= call.now)))
  {
    var plan := PlanOf(w, key, call);
    match call {
      case Refresh(force, now, reply) =>
        if plan.Then? && plan.effect.SaveIntent? {
          var flying := plan.effect.grant;
          RecordSendsNothing(flying, force, now, reply);
          if !reply.NoClient? {
            assert plan.rest == Then(Send(flying.refreshToken, now), RecordReply(flying, force, now, reply));
          }
        } else if plan.Then? && plan.rest.Then? {
          assert !Sends(plan.rest.rest);
        }
      case Sync(dir, now, fault) =>
        if plan.Then? && !w.slot.canonical.value.Blocked() {
          var g := w.slot.canonical.value;
          var work := ProjectWork(w.cpa, key, g, dir, now, fault);
          FileStepsOnly(w.cpa, key, g, dir, now, fault);
          PrependSendsNothing(work.steps, FinishSync(g, work.error));
        }
      case Import(_, _) =>
        if plan.Then? && plan.rest.Then? {
          assert !Sends(plan.rest.rest);
        }
      case SetCpa(_, _) =>
      case Acknowledge(_) =>
    }
  }

  // ----- Handing the same credential over again -----

  predicate NoInstall(plan: Plan)
    decreases plan
  {
    plan.Then? ==> !plan.effect.InstallImport? && NoInstall(plan.rest)
  }

  lemma {:induction false} PrependInstallsNothing(steps: seq<Effect>, plan: Plan)
    requires NoInstall(plan) && forall e | e in steps :: !e.InstallImport?
    ensures NoInstall(Prepend(steps, plan))
    decreases |steps|
  {
    if steps != [] {
      PrependInstallsNothing(steps[1..], plan);
    }
  }

  lemma RecordInstallsNothing(c: Grant, force: bool, now: nat, reply: Reply)
    ensures NoInstall(RecordReply(c, force, now, reply))
  {
    var plan := RecordReply(c, force, now, reply);
    if plan.rest.Then? {
      assert NoInstall(plan.rest.rest.rest);
      assert NoInstall(plan.rest.rest);
      assert NoInstall(plan.rest);
    }
  }

  lemma OnlyImportsInstall(w: World, key: string, call: Call)
    requires call.Import? ==> PlanOf(w, key, call).Return?
    ensures NoInstall(PlanOf(w, key, call))
  {
    match call {
      case Refresh(force, now, reply) =>
        var plan := RefreshPlan(w.slot, force, now, reply);
        if plan.Then? && plan.effect.SaveIntent? {
          var flying := plan.effect.grant;
          RecordInstallsNothing(flying, force, now, reply);
          if !reply.NoClient? {
            assert plan.rest == Then(Send(flying.refreshToken, now), RecordReply(flying, force, now, reply));
          }
        }
      case Sync(dir, now, fault) =>
        var plan := SyncPlan(w.slot, w.cpa, key, dir, now, fault);
        if plan.Then? && !w.slot.canonical.value.Blocked() {
          var g := w.slot.canonical.value;
          var work := ProjectWork(w.cpa, key, g, dir, now, fault);
          FileStepsOnly(w.cpa, key, g, dir, now, fault);
          PrependInstallsNothing(work.steps, FinishSync(g, work.error));
        }
      case Import(_, _) =>
      case SetCpa(_, _) =>
      case Acknowledge(_) =>
    }
  }

  predicate Lineage(w: World, handoff: Digest) {
    && w.slot.canonical.Some? && w.slot.canonical.value.handoffId == handoff
    && (w.slot.journal.Some? ==> w.slot.journal.value.handoffId == handoff)
  }

  lemma {:induction false} PlanKeepsLineage(w: World, key: string, plan: Plan, n: nat, handoff: Digest)
    requires Lineage(w, handoff) && Lawful(w, key, plan) && NoInstall(plan)
    ensures Lineage(RunPlan(w, plan, n), handoff)
    decreases plan
  {
    if plan.Then? && n != 0 {
      PlanKeepsLineage(Apply(w, plan.effect), key, plan.rest, n - 1, handoff);
    }
  }

  lemma {:induction false} RunKeepsLineage(w: World, key: string, evs: seq<Event>, handoff: Digest)
    requires Core(w, key) && HonestCallRun(w, key, evs) && NoneAdmitted(w, key, evs) && Lineage(w, handoff)
    ensures Lineage(Run(w, key, evs), handoff)
    decreases |evs|
  {
    if evs != [] {
      var ev := evs[0];
      StepKeepsCore(w, key, ev);
      if ev.Perform? {
        CallsAreLawful(w, key, ev.call, ev.steps);
        OnlyImportsInstall(w, key, ev.call);
        PlanKeepsLineage(w, key, PlanOf(w, key, ev.call), ev.steps, handoff);
      }
      RunKeepsLineage(Step(w, key, ev), key, evs[1..], handoff);
    }
  }

  /** After any number of rotations with no other import between, handing over the original
      credential again changes nothing: the retry of a lost reply is harmless. */
  lemma RetriedHandoffChangesNothing(w: World, key: string, evs: seq<Event>, body: GrantBody, now: nat)
    requires Core(w, key) && HonestCallRun(w, key, evs) && NoneAdmitted(w, key, evs)
    requires body.Fields? && body.refresh.Some? && Lineage(w, Digest(body.refresh.value))
    ensures var w' := Run(w, key, evs);
            forall n: nat :: Step(w', key, Perform(Import(body, now), n)) == w'
  {
    RunKeepsLineage(w, key, evs, Digest(body.refresh.value));
    var w' := Run(w, key, evs);
    assert PlanOf(w', key, Import(body, now)).Return?;
  }

  // ----- Import, stranded journals and generations -----

  /** An accepted import cut off between its two steps leaves the old journal behind. The
      next refresh throws the imported credential away for the journal's exactly when that
      happened and the journal is of the generation just assigned and of the same identity. */
  lemma StrandedJournalBeatsImport(w: World, key: string, body: GrantBody, now: nat, n: nat,
                                   force: bool, later: nat, reply: Reply)
    requires Core(w, key) && Admits(w, key, Perform(Import(body, now), n)) && 0 < n
    ensures var g := PlanOf(w, key, Import(body, now)).effect.grant;
            var w1 := Step(w, key, Perform(Import(body, now), n));
            var plan := PlanOf(w1, key, Refresh(force, later, reply));
            && w1.slot.canonical == Some(g)
            && ((plan.Then? && plan.effect.Promote?) <==>
                  n == 1 && w.slot.journal.Some? && w.slot.journal.value.generation == g.generation
                  && SameIdentity(g, w.slot.journal.value))
            && (plan.Then? && plan.effect.Promote? ==>
                  RunPlan(w1, plan, 1).slot.canonical == Some(w.slot.journal.value.(inFlight := false)))
  {
    var plan := PlanOf(w, key, Import(body, now));
    var w1 := Apply(w, plan.effect);
    assert Step(w, key, Perform(Import(body, now), n)) == RunPlan(w1, plan.rest, n - 1);
    if w.slot.journal.Some? && n != 1 {
      assert plan.rest == Then(DropJournal, plan.rest.rest) && plan.rest.rest.Return?;
      assert RunPlan(w1, plan.rest, n - 1) == Apply(w1, DropJournal);
    }
  }

  // A run in which that happens, state by state.

  function Token(raw: string): Jwt {
    Jwt(raw, Some(Claims(Some("e"), Some("a"), None, None, Some(1000), Some(0))))
  }

  function Body(access: string, refresh: string): GrantBody {
    Fields(Some(Token(access)), Some(refresh), Some(Token("id")), None, None, None)
  }

  const NOTHING := World(Slot(None, None), map[], [])
  const FIRST_IMPORT := Perform(Import(Body("a0", "r0"), 0), 1)
  const LOST_REFRESH := Perform(Refresh(true, 1, Tokens(Some(Token("a1")), Some("r1"), None, 1)), 3)
  const LOST_IMPORT := Perform(Import(Body("a2", "r2"), 2), 1)

  lemma AfterFirstImport()
    ensures var w := Step(NOTHING, "k", FIRST_IMPORT); var g := ParseGrant("k", Body("a0", "r0"), 0).value;
            ParseGrant("k", Body("a0", "r0"), 0).Ok? && w == World(Slot(Some(g), None), map[], [InstallImport(g)])
  {
  }

  /** The refresh is cut off after its journal write, whichever way the consumer is switched. */
  lemma AfterLostRefresh(w: World, g: Grant)
    requires w.slot == Slot(Some(g), None) && !g.Blocked()
    requires g.email == "e" && g.accountId == "a" && g.refreshToken == "r0" && g.idToken.claims.Some?
    ensures var w' := Step(w, "k", LOST_REFRESH);
            && w'.slot.canonical == Some(g.(inFlight := true)) && w'.slot.journal.Some?
            && var j := w'.slot.journal.value;
               && j.refreshToken == "r1" && j.generation == g.generation + 1
               && j.cpaEnabled == g.cpaEnabled && SameIdentity(g, j)
  {
    var call := LOST_REFRESH.call;
    var flying := g.(inFlight := true);
    var plan := PlanOf(w, "k", call);
    var record := RecordReply(flying, true, 1, call.reply);
    assert plan == Then(SaveIntent(flying), Then(Send("r0", 1), record));
    var w1 := Apply(w, SaveIntent(flying));
    var w2 := Apply(w1, Send("r0", 1));
    assert RunPlan(w, plan, 3) == RunPlan(w1, plan.rest, 2) == RunPlan(w2, record, 1);
    assert RunPlan(w2, record, 1) == RunPlan(Apply(w2, record.effect), record.rest, 0) == Apply(w2, record.effect);
  }

  /** A refresh cut off after its journal write, then an import cut off after its first step:
      the next refresh brings the old lineage back and the imported token is gone. */
  lemma ImportCanBeUndone(force: bool, now: nat, reply: Reply)
    ensures var w := Run(NOTHING, "k", [FIRST_IMPORT, LOST_REFRESH, LOST_IMPORT]);
            && w.slot.canonical.Some? && w.slot.canonical.value.refreshToken == "r2"
            && var w' := Step(w, "k", Perform(Refresh(force, now, reply), 2));
               && w'.slot.canonical.Some? && w'.slot.canonical.value.refreshToken == "r1" && w'.slot.journal.None?
  {
    var g := ParseGrant("k", Body("a0", "r0"), 0).value;
    AfterFirstImport();
    var w1 := Step(NOTHING, "k", FIRST_IMPORT);
    AfterLostRefresh(w1, g);
    var w2 := Step(w1, "k", LOST_REFRESH);
    var w3 := Step(w2, "k", LOST_IMPORT);
    var evs := [FIRST_IMPORT, LOST_REFRESH, LOST_IMPORT];
    assert evs[1..] == [LOST_REFRESH, LOST_IMPORT] && evs[1..][1..] == [LOST_IMPORT] && evs[1..][1..][1..] == [];
    assert Run(w2, "k", [LOST_IMPORT]) == Run(w3, "k", []);
    assert Run(w1, "k", [LOST_REFRESH, LOST_IMPORT]) == Run(w2, "k", [LOST_IMPORT]);
    var plan := PlanOf(w2, "k", LOST_IMPORT.call);
    var h := ParseGrant("k", Body("a2", "r2"), 2).value;
    assert plan == Install(w2.slot, Merge(g.(inFlight := true), h));
    assert w3 == RunPlan(Apply(w2, plan.effect), plan.rest, 0) == Apply(w2, plan.effect);
    var next := PlanOf(w3, "k", Refresh(force, now, reply));
    var j := w2.slot.journal.value.(inFlight := false);
    assert next == Then(Promote(j), Then(DropJournal, Return(Ok(j))));
    var w4 := Apply(w3, Promote(j));
    assert RunPlan(w4, next.rest, 1) == RunPlan(Apply(w4, DropJournal), Return(Ok(j)), 0) == Apply(w4, DropJournal);
    assert RunPlan(w3, next, 2) == RunPlan(w4, next.rest, 1);
  }

  /** The event is not an import cut off between its two steps. */
  predicate Unsplit(ev: Event) {
    ev.Perform? && ev.call.Import? ==> ev.steps != 1
  }

  function Imports(log: seq<Effect>): nat
    decreases |log|
  {
    if log == [] then 0
    else Imports(log[..|log| - 1]) + (if log[|log| - 1].InstallImport? then 1 else 0)
  }

  /** Any two saves of the grant file with the same generation are of the same credential. */
  ghost predicate OneCredentialEach(log: seq<Effect>) {
    forall i, j | 0 <= i < |log| && 0 <= j < |log| && log[i].SavesCanonical() && log[j].SavesCanonical()
                  && log[i].grant.generation == log[j].grant.generation ::
      SameCredential(log[i].grant, log[j].grant)
  }

  /** Every save of a grant's generation is of its credential. */
  ghost predicate SavedAs(log: seq<Effect>, g: Grant) {
    forall i | 0 <= i < |log| && log[i].SavesCanonical() && log[i].grant.generation == g.generation ::
      SameCredential(log[i].grant, g)
  }

  /** Equal generations mean equal credentials, now and over the whole history of the grant
      file, and the generation counts refreshes and imports exactly. */
  ghost predicate Versioned(w: World) {
    && OneCredentialEach(w.log)
    && (w.slot.canonical.Some? ==>
          && SavedAs(w.log, w.slot.canonical.value)
          && w.slot.canonical.value.generation == w.slot.canonical.value.refreshCount + Imports(w.log))
    && (w.slot.canonical.None? ==> w.log == [] && w.slot.journal.None?)
  }

  /** The journal is one rotation ahead of the grant file, or already promoted. */
  predicate JournalAligned(w: World) {
    w.slot.journal.Some? && w.slot.canonical.Some? ==>
      var c, j := w.slot.canonical.value, w.slot.journal.value;
      || (j.generation == c.generation + 1 && j.refreshCount == c.refreshCount + 1)
      || SameCredential(c, j)
  }

  lemma LogOfOtherStep(log: seq<Effect>, e: Effect, g: Grant)
    requires OneCredentialEach(log) && !e.SavesCanonical()
    ensures OneCredentialEach(log + [e]) && (SavedAs(log, g) ==> SavedAs(log + [e], g))
  {
  }

  lemma LogOfSave(log: seq<Effect>, e: Effect)
    requires OneCredentialEach(log) && e.SavesCanonical() && SavedAs(log, e.grant)
    ensures OneCredentialEach(log + [e]) && SavedAs(log + [e], e.grant)
  {
  }

  lemma ImportsStep(log: seq<Effect>, e: Effect)
    ensures Imports(log + [e]) == Imports(log) + (if e.InstallImport? then 1 else 0)
  {
  }

  lemma VersionedStep(w: World, key: string, e: Effect)
    requires Versioned(w) && JournalAligned(w) && Counted(w) && Legal(w, key, e)
    ensures Versioned(Apply(w, e))
    ensures !e.InstallImport? ==> JournalAligned(Apply(w, e))
  {
    ImportsStep(w.log, e);
    if e.SavesCanonical() {
      NewSaveIsVersioned(w, key, e);
      LogOfSave(w.log, e);
    } else {
      LogOfOtherStep(w.log, e, w.slot.canonical.value);
    }
  }

  /** A save of an old generation is of the old credential. */
  lemma NewSaveIsVersioned(w: World, key: string, e: Effect)
    requires Versioned(w) && JournalAligned(w) && Counted(w) && Legal(w, key, e) && e.SavesCanonical()
    ensures SavedAs(w.log, e.grant)
  {
    if w.slot.canonical.Some? {
      SaveAdvancesOrKeeps(w, key, e);
      forall i | 0 <= i < |w.log| && w.log[i].SavesCanonical() && w.log[i].grant.generation == e.grant.generation
        ensures SameCredential(w.log[i].grant, e.grant)
      {
        assert Shown(w.log[i]) == Some(w.log[i].grant.generation);
      }
    }
  }

  lemma SaveAdvancesOrKeeps(w: World, key: string, e: Effect)
    requires JournalAligned(w) && Legal(w, key, e) && e.SavesCanonical() && w.slot.canonical.Some?
    ensures w.slot.canonical.value.generation < e.grant.generation || SameCredential(w.slot.canonical.value, e.grant)
  {
  }

  lemma {:induction false} PlanKeepsVersions(w: World, key: string, plan: Plan, n: nat)
    requires Core(w, key) && Versioned(w) && JournalAligned(w) && Lawful(w, key, plan) && NoInstall(plan)
    ensures Versioned(RunPlan(w, plan, n)) && JournalAligned(RunPlan(w, plan, n))
    decreases plan
  {
    if plan.Then? && n != 0 {
      VersionedStep(w, key, plan.effect);
      EffectKeepsCore(w, key, plan.effect);
      PlanKeepsVersions(Apply(w, plan.effect), key, plan.rest, n - 1);
    }
  }

  /** Removing the journal leaves the grant file's record as it was. */
  lemma DropKeepsVersions(w: World, g: Grant)
    requires Versioned(w) && w.slot.canonical == Some(g)
    ensures Versioned(Apply(w, DropJournal)) && JournalAligned(Apply(w, DropJournal))
  {
  }

  lemma WholeImportKeepsVersions(w: World, key: string, body: GrantBody, now: nat, n: nat)
    requires Core(w, key) && Versioned(w) && JournalAligned(w) && n != 1
    requires Honest(w, key, Perform(Import(body, now), n)) && Admits(w, key, Perform(Import(body, now), n))
    ensures var w' := Step(w, key, Perform(Import(body, now), n));
            Versioned(w') && JournalAligned(w')
  {
    if n != 0 {
      var plan := PlanOf(w, key, Import(body, now));
      CallsAreLawful(w, key, Import(body, now), n);
      var w1 := Apply(w, plan.effect);
      VersionedStep(w, key, plan.effect);
      assert RunPlan(w, plan, n) == RunPlan(w1, plan.rest, n - 1);
      if plan.rest.Then? {
        assert plan.rest.rest.Return? && RunPlan(w1, plan.rest, n - 1) == Apply(w1, DropJournal);
        DropKeepsVersions(w1, plan.effect.grant);
      }
    }
  }

  lemma {:induction false} RunKeepsVersions(w: World, key: string, evs: seq<Event>)
    requires Core(w, key) && HonestCallRun(w, key, evs) && Versioned(w) && JournalAligned(w)
    requires forall ev | ev in evs :: Unsplit(ev)
    ensures Versioned(Run(w, key, evs)) && JournalAligned(Run(w, key, evs))
    decreases |evs|
  {
    if evs != [] {
      var ev := evs[0];
      assert ev in evs && Unsplit(ev);
      StepKeepsCore(w, key, ev);
      if Admits(w, key, ev) {
        WholeImportKeepsVersions(w, key, ev.call.body, ev.call.now, ev.steps);
      } else if ev.Perform? {
        CallsAreLawful(w, key, ev.call, ev.steps);
        OnlyImportsInstall(w, key, ev.call);
        PlanKeepsVersions(w, key, PlanOf(w, key, ev.call), ev.steps);
      }
      RunKeepsVersions(Step(w, key, ev), key, evs[1..]);
    }
  }

  /** In every run in which no import is cut off between its two steps, a generation names
      one credential for ever, and it counts refreshes and imports exactly. */
  lemma GenerationNamesOneCredential(w: World, key: string, evs: seq<Event>)
    requires Empty(w) && HonestCallRun(w, key, evs) && forall ev | ev in evs :: Unsplit(ev)
    ensures Versioned(Run(w, key, evs))
  {
    EmptyIsSafe(w, key);
    RunKeepsVersions(w, key, evs);
  }
}
