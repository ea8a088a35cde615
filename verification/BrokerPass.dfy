/** What a scheduler pass comes to: whom it syncs, and what it leaves for each account. */
module BrokerPass {
  import opened Basics
  import opened Grants
  import opened CpaDirectory
  import opened BrokerPlans
  import opened BrokerRuns
  import opened BrokerFleet
  import opened BrokerReplies
  import opened CpaSync
  import opened SyncOutcomes

  // ----- One visit -----

  /** The account after the visit's refresh. */
  function Refreshed(f: Fleet, v: Visit, n: nat): World
    requires v.key in f.accounts
  {
    Step(WorldIn(f, v.key), v.key, Perform(Refresh(false, v.now, v.reply), n))
  }

  /** The consumer is on, no error is recorded and no request is in flight. */
  predicate Healthy(w: World) {
    && w.slot.canonical.Some?
    && w.slot.canonical.value.cpaEnabled && w.slot.canonical.value.error == None && !w.slot.canonical.value.inFlight
  }

  lemma RecordStepsAreFew(c: Grant, force: bool, now: nat, reply: Reply)
    ensures Steps(RecordReply(c, force, now, reply)) <= 3
  {
    var record := RecordReply(c, force, now, reply);
    if record.rest.Then? {
      assert record.rest.rest.rest.Return?;
      assert Steps(record.rest.rest) == 1;
      assert Steps(record.rest) == 2;
    }
  }

  /** A refresh takes at most five steps. */
  lemma RefreshStepsAreFew(slot: Slot, force: bool, now: nat, reply: Reply)
    ensures Steps(RefreshPlan(slot, force, now, reply)) <= 5
  {
    var plan := RefreshPlan(slot, force, now, reply);
    if plan.Then? && plan.effect.SaveIntent? {
      var flying := plan.effect.grant;
      RecordStepsAreFew(flying, force, now, reply);
      var record := RecordReply(flying, force, now, reply);
      assert plan.rest == if reply.NoClient? then record else Then(Send(flying.refreshToken, now), record);
      assert Steps(plan.rest) <= 1 + Steps(record);
    } else if plan.Then? && plan.rest.Then? {
      assert Steps(plan.rest) == 1;
    }
  }

  lemma {:induction false} LeftOver(plan: Plan, n: nat)
    requires Steps(plan) <= n
    ensures Left(plan, n) == n - Steps(plan)
    decreases plan
  {
    if plan.Then? {
      LeftOver(plan.rest, n - 1);
    }
  }

  /** With steps enough, a visit refreshes the account and then syncs it exactly when the grant on
      disk after the refresh has the consumer on, no error and no request in flight. */
  lemma VisitSyncsExactlyWhen(f: Fleet, v: Visit, n: nat)
    requires v.key in f.accounts && 8 <= n
    ensures var evs := VisitEvents(f, v, n);
            && |evs| == (if Healthy(Refreshed(f, v, n)) then 2 else 1)
            && evs[0] == At(v.key, Refresh(false, v.now, v.reply), n)
            && (|evs| == 2 ==>
                  && evs[1].At? && evs[1].key == v.key && evs[1].call == Sync(v.dir, v.now, v.fault)
                  && 3 <= evs[1].steps)
    ensures n <= LeftAfter(f, v, n) + 8
  {
    var w := WorldIn(f, v.key);
    var plan := PlanOf(w, v.key, Refresh(false, v.now, v.reply));
    RefreshStepsAreFew(w.slot, false, v.now, v.reply);
    LeftOver(plan, n);
    var w' := RunPlan(w, plan, n);
    SyncStepsAreFew(w'.slot, w'.cpa, v.key, v.dir, v.now, v.fault);
    LeftOver(SyncPlan(w'.slot, w'.cpa, v.key, v.dir, v.now, v.fault), Left(plan, n));
  }

  /** What a visit leaves: the refreshed account, synced if it is healthy. */
  lemma VisitLeaves(f: Fleet, v: Visit, n: nat) returns (left: nat)
    requires v.key in f.accounts && 8 <= n
    ensures 3 <= left
    ensures var w := Refreshed(f, v, n);
            FleetRun(f, VisitEvents(f, v, n)) ==
              Put(f, v.key, if Healthy(w) then Step(w, v.key, Perform(Sync(v.dir, v.now, v.fault), left)) else w)
  {
    VisitSyncsExactlyWhen(f, v, n);
    VisitMeaning(f, v, n);
    var plan := PlanOf(WorldIn(f, v.key), v.key, Refresh(false, v.now, v.reply));
    left := Left(plan, n);
    RefreshStepsAreFew(f.accounts[v.key].slot, false, v.now, v.reply);
    LeftOver(plan, n);
  }

  /** A completed refresh touches no consumer file and keeps the account's key. */
  lemma RefreshKeepsKey(w: World, key: string, force: bool, now: nat, reply: Reply, n: nat)
    requires Keyed(w, key) && 5 <= n
    ensures var w' := Step(w, key, Perform(Refresh(force, now, reply), n));
            w'.cpa == w.cpa && Keyed(w', key)
  {
    if w.slot.canonical.Some? {
      if !MayRequest(w, force, now) {
        RefreshWithoutRequest(w, key, force, now, reply, n);
      } else if BringsCredential(w.slot.canonical.value, reply) {
        CompletedRequestRecordsRotation(w, key, force, now, reply, n);
      } else {
        CompletedRequestRecordsFailure(w, key, force, now, reply, n);
      }
    }
  }

  /** Visited with the directory listed and no fault, an account whose consumer is on and that is
      healthy after its refresh has its current credential in the directory and its generation
      recorded as synced, unless the directory or the clock obstructs it. */
  lemma VisitPublishes(f: Fleet, v: Visit, n: nat)
    requires v.key in f.accounts && Keyed(WorldIn(f, v.key), v.key) && 8 <= n
    requires v.dir.Listed? && Lists(v.dir.names, f.cpa) && v.fault.NoFault?
    requires Healthy(Refreshed(f, v, n)) && !Refreshed(f, v, n).slot.canonical.value.cpaSyncSuspended
    requires Unobstructed(f.cpa, v.key, Refreshed(f, v, n).slot.canonical.value, v.now)
    ensures var g := Refreshed(f, v, n).slot.canonical.value; var f' := FleetRun(f, VisitEvents(f, v, n));
            && f'.accounts.Keys == f.accounts.Keys
            && f'.accounts[v.key].slot.canonical == Some(g.(cpaSyncedGeneration := Some(g.generation), cpaSyncError := None))
            && Delivered(f.cpa, f'.cpa, v.key, g)
  {
    RefreshKeepsKey(WorldIn(f, v.key), v.key, false, v.now, v.reply, n);
    var left := VisitLeaves(f, v, n);
    SyncPublishesExactlyWhen(Refreshed(f, v, n), v.key, v.dir.names, v.now, left);
  }

  // ----- The whole pass -----

  predicate AllKeyed(f: Fleet) {
    forall key | key in f.accounts :: Keyed(WorldIn(f, key), key)
  }

  /** The fleet and the durable steps left after these visits. */
  function After(f: Fleet, visits: seq<Visit>, n: nat): (Fleet, nat)
    requires forall v | v in visits :: v.key in f.accounts
    decreases |visits|
  {
    if visits == [] then (f, n)
    else
      VisitKeepsKeys(f, visits[0], n);
      After(FleetRun(f, VisitEvents(f, visits[0], n)), visits[1..], LeftAfter(f, visits[0], n))
  }

  lemma {:induction false} PassEndsThere(f: Fleet, visits: seq<Visit>, n: nat)
    requires forall v | v in visits :: v.key in f.accounts
    ensures FleetRun(f, PassEvents(f, visits, n)) == After(f, visits, n).0
    decreases |visits|
  {
    if visits != [] {
      VisitKeepsKeys(f, visits[0], n);
      var evs := VisitEvents(f, visits[0], n);
      var f', n' := FleetRun(f, evs), LeftAfter(f, visits[0], n);
      PassEndsThere(f', visits[1..], n');
      FleetRunJoins(f, evs, PassEvents(f', visits[1..], n'));
    }
  }

  /** Each visit that lists the directory lists all of it. */
  predicate FullyListed(f: Fleet, visits: seq<Visit>, n: nat)
    requires forall v | v in visits :: v.key in f.accounts
    decreases |visits|
  {
    visits != [] ==>
      && (visits[0].dir.Listed? ==> Lists(visits[0].dir.names, f.cpa))
      && (VisitKeepsKeys(f, visits[0], n);
          FullyListed(FleetRun(f, VisitEvents(f, visits[0], n)), visits[1..], LeftAfter(f, visits[0], n)))
  }

  /** The account's files are the same, and there are no others. */
  ghost predicate SameOwnFiles(before: Directory, after: Directory, key: string) {
    forall n ::
      && (IsOwnFile(n, before, key) <==> IsOwnFile(n, after, key))
      && (IsOwnFile(n, before, key) ==> after[n] == before[n])
  }

  lemma LegalStepSparesOthers(w: World, key: string, e: Effect, other: string)
    requires Legal(w, key, e) && key != other
    ensures SameOwnFiles(w.cpa, Apply(w, e).cpa, other)
  {
  }

  lemma {:induction false} PlanSparesOthers(w: World, key: string, plan: Plan, n: nat, other: string)
    requires Lawful(w, key, plan) && key != other
    ensures SameOwnFiles(w.cpa, RunPlan(w, plan, n).cpa, other)
    decreases plan
  {
    if plan.Then? && n != 0 {
      LegalStepSparesOthers(w, key, plan.effect, other);
      PlanSparesOthers(Apply(w, plan.effect), key, plan.rest, n - 1, other);
    }
  }

  /** A visit leaves every other account's grant, journal and consumer files alone. */
  lemma VisitSparesOthers(f: Fleet, v: Visit, n: nat, other: string)
    requires v.key in f.accounts && AllKeyed(f) && 8 <= n && (v.dir.Listed? ==> Lists(v.dir.names, f.cpa))
    ensures var f' := FleetRun(f, VisitEvents(f, v, n));
            && f'.accounts.Keys == f.accounts.Keys && AllKeyed(f')
            && (other in f.accounts && other != v.key ==>
                  f'.accounts[other] == f.accounts[other] && SameOwnFiles(f.cpa, f'.cpa, other))
  {
    var left := VisitLeaves(f, v, n);
    var w := Refreshed(f, v, n);
    RefreshKeepsKey(WorldIn(f, v.key), v.key, false, v.now, v.reply, n);
    var sync := SyncPlan(w.slot, w.cpa, v.key, v.dir, v.now, v.fault);
    SyncIsLawful(w, v.key, v.dir, v.now, v.fault);
    PlanKeepsKey(w, v.key, sync, left);
    if other != v.key {
      PlanSparesOthers(w, v.key, sync, left, other);
    }
    var f' := FleetRun(f, VisitEvents(f, v, n));
    forall key | key in f'.accounts
      ensures Keyed(WorldIn(f', key), key)
    {
      assert key != v.key ==> Keyed(WorldIn(f, key), key);
    }
  }

  /** Visits to other accounts leave an account as it is. */
  lemma {:induction false} LaterVisitsSpare(f: Fleet, visits: seq<Visit>, n: nat, key: string)
    requires forall v | v in visits :: v.key in f.accounts && v.key != key
    requires key in f.accounts && AllKeyed(f) && 8 * |visits| <= n && FullyListed(f, visits, n)
    ensures var f' := After(f, visits, n).0;
            key in f'.accounts && f'.accounts[key] == f.accounts[key] && SameOwnFiles(f.cpa, f'.cpa, key)
    decreases |visits|
  {
    if visits != [] {
      assert visits[0] in visits && forall v | v in visits[1..] :: v in visits;
      VisitSparesOthers(f, visits[0], n, key);
      VisitSyncsExactlyWhen(f, visits[0], n);
      LaterVisitsSpare(FleetRun(f, VisitEvents(f, visits[0], n)), visits[1..], LeftAfter(f, visits[0], n), key);
    }
  }

  /** The account is due for publishing at its visit: healthy and enabled after its refresh, in a
      listed directory where nothing obstructs it. */
  ghost predicate ToBePublished(f: Fleet, v: Visit, n: nat)
    requires v.key in f.accounts
  {
    var w := Refreshed(f, v, n);
    && v.dir.Listed? && v.fault.NoFault?
    && Healthy(w) && !w.slot.canonical.value.cpaSyncSuspended
    && Unobstructed(f.cpa, v.key, w.slot.canonical.value, v.now)
  }

  /** The current generation of `g` is recorded as synced, and the account's one file carries it. */
  ghost predicate UpToDate(f: Fleet, key: string, g: Grant) {
    && key in f.accounts
    && f.accounts[key].slot.canonical == Some(g.(cpaSyncedGeneration := Some(g.generation), cpaSyncError := None))
    && var name := CanonicalName(g, key);
       && name in f.cpa && f.cpa[name].Doc? && CpaDirectory.Carries(f.cpa[name].value, g)
       && forall n :: IsOwnFile(n, f.cpa, key) <==> n == name
  }

  /** Once an account has been synced at its visit, later visits leave it up to date. */
  lemma StaysUpToDate(f: Fleet, v: Visit, rest: seq<Visit>, n: nat)
    requires v.key in f.accounts && AllKeyed(f) && 8 * |rest| + 8 <= n
    requires v.dir.Listed? ==> Lists(v.dir.names, f.cpa)
    requires ToBePublished(f, v, n)
    requires forall u | u in rest :: u.key in f.accounts && u.key != v.key
    requires var f' := FleetRun(f, VisitEvents(f, v, n));
             && f'.accounts.Keys == f.accounts.Keys && AllKeyed(f')
             && FullyListed(f', rest, LeftAfter(f, v, n))
    ensures var f' := FleetRun(f, VisitEvents(f, v, n));
            UpToDate(After(f', rest, LeftAfter(f, v, n)).0, v.key, Refreshed(f, v, n).slot.canonical.value)
  {
    VisitSyncsExactlyWhen(f, v, n);
    VisitPublishes(f, v, n);
    LaterVisitsSpare(FleetRun(f, VisitEvents(f, v, n)), rest, LeftAfter(f, v, n), v.key);
  }

  predicate DistinctAccounts(visits: seq<Visit>) {
    forall j, k | 0 <= j < k < |visits| :: visits[j].key != visits[k].key
  }

  lemma OthersLater(visits: seq<Visit>)
    requires visits != [] && DistinctAccounts(visits)
    ensures DistinctAccounts(visits[1..]) && forall u | u in visits[1..] :: u in visits && u.key != visits[0].key
  {
  }

  /** The visit number `i` of a pass does what it is for: whoever is then to be published is up to
      date at the end. */
  ghost predicate Serves(f: Fleet, visits: seq<Visit>, n: nat, i: nat)
    requires i < |visits| && forall v | v in visits :: v.key in f.accounts
  {
    var f', n' := Before(f, visits, n, i).0, Before(f, visits, n, i).1;
    && visits[i].key in f'.accounts
    && (ToBePublished(f', visits[i], n') ==>
          UpToDate(FleetRun(f, PassEvents(f, visits, n)), visits[i].key, Refreshed(f', visits[i], n').slot.canonical.value))
  }

  /** The fleet and the steps left when the visit number `i` begins. */
  function Before(f: Fleet, visits: seq<Visit>, n: nat, i: nat): (Fleet, nat)
    requires i < |visits| && forall v | v in visits :: v.key in f.accounts
  {
    assert forall v | v in visits[..i] :: v in visits;
    After(f, visits[..i], n)
  }

  lemma OneVisitOn(f: Fleet, visits: seq<Visit>, n: nat, i: nat)
    requires 0 < i < |visits| && forall v | v in visits :: v.key in f.accounts
    ensures var f1, n1, rest := FleetRun(f, VisitEvents(f, visits[0], n)), LeftAfter(f, visits[0], n), visits[1..];
            && f1.accounts.Keys == f.accounts.Keys
            && Before(f, visits, n, i) == Before(f1, rest, n1, i - 1)
            && FleetRun(f, PassEvents(f, visits, n)) == FleetRun(f1, PassEvents(f1, rest, n1))
  {
    VisitKeepsKeys(f, visits[0], n);
    assert visits[..i][0] == visits[0] && visits[..i][1..] == visits[1..][..i - 1];
    var f1, n1 := FleetRun(f, VisitEvents(f, visits[0], n)), LeftAfter(f, visits[0], n);
    FleetRunJoins(f, VisitEvents(f, visits[0], n), PassEvents(f1, visits[1..], n1));
  }

  lemma FirstVisitServes(f: Fleet, visits: seq<Visit>, n: nat)
    requires visits != [] && forall v | v in visits :: v.key in f.accounts
    requires DistinctAccounts(visits)
    requires AllKeyed(f) && 8 * |visits| <= n && FullyListed(f, visits, n)
    ensures Serves(f, visits, n, 0)
  {
    var v, rest := visits[0], visits[1..];
    assert v in visits;
    OthersLater(visits);
    assert visits[..0] == [];
    PassEndsThere(f, visits, n);
    VisitSparesOthers(f, v, n, v.key);
    if ToBePublished(f, v, n) {
      StaysUpToDate(f, v, rest, n);
    }
  }

  /** A pass with steps enough over distinct accounts: everyone who is healthy, enabled and
      unobstructed when visited is up to date at the end of the pass. */
  lemma {:induction false} PassPublishesEveryHealthyAccount(f: Fleet, visits: seq<Visit>, n: nat, i: nat)
    requires forall v | v in visits :: v.key in f.accounts
    requires DistinctAccounts(visits)
    requires AllKeyed(f) && 8 * |visits| <= n && FullyListed(f, visits, n) && i < |visits|
    ensures Serves(f, visits, n, i)
    decreases |visits|
  {
    if i == 0 {
      FirstVisitServes(f, visits, n);
    } else {
      var v, rest := visits[0], visits[1..];
      assert v in visits;
      OthersLater(visits);
      VisitSparesOthers(f, v, n, v.key);
      VisitSyncsExactlyWhen(f, v, n);
      OneVisitOn(f, visits, n, i);
      PassPublishesEveryHealthyAccount(FleetRun(f, VisitEvents(f, v, n)), rest, LeftAfter(f, v, n), i - 1);
    }
  }

  // ----- What a pass reports -----

  predicate StorageTrouble(r: Result<Grant, Error>) {
    r.Err? && (r.error == Storage || r.error == InputTooLarge)
  }

  /** A visit reports nothing exactly when the account is there, its refresh met no storage error,
      and its sync, if there was one, neither met nor recorded one; and of two errors it reports
      that of the sync. */
  lemma VisitReportsNothingExactlyWhen(f: Fleet, v: Visit, n: nat)
    requires v.key in f.accounts && 8 <= n
    ensures var w := Refreshed(f, v, n);
            var refreshed := Answer(PlanOf(WorldIn(f, v.key), v.key, Refresh(false, v.now, v.reply)), n);
            var synced := Answer(PlanOf(w, v.key, Sync(v.dir, v.now, v.fault)), 3);
            VisitError(f, v, n).None? <==>
              && w.slot.canonical.Some? && !StorageTrouble(refreshed)
              && (Healthy(w) ==>
                    && !StorageTrouble(synced)
                    && (synced.Ok? ==> synced.value.cpaSyncSuspended || synced.value.cpaSyncError != Some(Storage)))
    ensures var w := Refreshed(f, v, n);
            var refreshed := Answer(PlanOf(WorldIn(f, v.key), v.key, Refresh(false, v.now, v.reply)), n);
            var synced := Answer(PlanOf(w, v.key, Sync(v.dir, v.now, v.fault)), 3);
            VisitError(f, v, n).Some? ==>
              VisitError(f, v, n).value ==
                if w.slot.canonical.None? then AccountMissing
                else if Healthy(w) && StorageTrouble(synced) then synced.error
                else if && Healthy(w) && synced.Ok? && !synced.value.cpaSyncSuspended
                        && synced.value.cpaSyncError == Some(Storage)
                then Storage
                else refreshed.error
  {
    VisitSyncsExactlyWhen(f, v, n);
    var w := Refreshed(f, v, n);
    var plan := PlanOf(WorldIn(f, v.key), v.key, Refresh(false, v.now, v.reply));
    var sync := PlanOf(w, v.key, Sync(v.dir, v.now, v.fault));
    RefreshStepsAreFew(f.accounts[v.key].slot, false, v.now, v.reply);
    LeftOver(plan, n);
    SyncStepsAreFew(w.slot, w.cpa, v.key, v.dir, v.now, v.fault);
    CompleteIsEveryStep(w, sync, Left(plan, n));
    CompleteIsEveryStep(w, sync, 3);
  }

  /** What the i-th visit of a pass reports. */
  function ReportOf(f: Fleet, visits: seq<Visit>, n: nat, i: nat): Option<Error>
    requires i < |visits| && forall v | v in visits :: v.key in f.accounts
    decreases |visits|
  {
    if i == 0 then VisitError(f, visits[0], n)
    else
      VisitKeepsKeys(f, visits[0], n);
      ReportOf(FleetRun(f, VisitEvents(f, visits[0], n)), visits[1..], LeftAfter(f, visits[0], n), i - 1)
  }

  /** The i-th visit is the last one to report an error. */
  predicate LastReport(f: Fleet, visits: seq<Visit>, n: nat, i: nat)
    requires i < |visits| && forall v | v in visits :: v.key in f.accounts
  {
    ReportOf(f, visits, n, i).Some? && forall j | i < j < |visits| :: ReportOf(f, visits, n, j).None?
  }

  /** A pass reports the error of the last visit that met one. */
  lemma {:induction false} PassReportsTheLastError(f: Fleet, visits: seq<Visit>, n: nat)
    requires forall v | v in visits :: v.key in f.accounts
    ensures PassError(f, visits, n).None? <==> forall i | 0 <= i < |visits| :: ReportOf(f, visits, n, i).None?
    ensures PassError(f, visits, n).Some? ==>
              exists i | 0 <= i < |visits| ::
                LastReport(f, visits, n, i) && ReportOf(f, visits, n, i) == PassError(f, visits, n)
    decreases |visits|
  {
    if visits != [] {
      VisitKeepsKeys(f, visits[0], n);
      var f', n', rest := FleetRun(f, VisitEvents(f, visits[0], n)), LeftAfter(f, visits[0], n), visits[1..];
      PassReportsTheLastError(f', rest, n');
      assert ReportOf(f, visits, n, 0) == VisitError(f, visits[0], n);
      forall i | 0 < i < |visits|
        ensures ReportOf(f, visits, n, i) == ReportOf(f', rest, n', i - 1)
      {
      }
      if PassError(f', rest, n').Some? {
        var k :| 0 <= k < |rest| && LastReport(f', rest, n', k) && ReportOf(f', rest, n', k) == PassError(f', rest, n');
        assert ReportOf(f, visits, n, k + 1) == PassError(f, visits, n);
        forall j | k + 1 < j < |visits|
          ensures ReportOf(f, visits, n, j).None?
        {
          assert ReportOf(f', rest, n', j - 1).None?;
        }
        assert LastReport(f, visits, n, k + 1);
      } else {
        forall j | 0 < j < |visits|
          ensures ReportOf(f, visits, n, j).None?
        {
          assert ReportOf(f', rest, n', j - 1).None?;
        }
        assert VisitError(f, visits[0], n).Some? ==> LastReport(f, visits, n, 0);
      }
    }
  }
}
