/** All accounts of one store, over the one consumer directory they share, with one call
    after another: what a single thread does, and what the scheduler's pass does alone.
    BrokerConcurrency lets all threads act at once, of which this is a special case. */
module BrokerFleet {
  import opened Basics
  import opened Grants
  import opened CpaDirectory
  import opened BrokerPlans
  import opened BrokerRuns

  /** One account's files and history. */
  datatype Account = Account(slot: Slot, log: seq<Effect>)

  datatype Fleet = Fleet(accounts: map<string, Account>, cpa: Directory)

  /** A call on one account cut off after some durable steps, or a change from outside. */
  datatype FleetEvent = At(key: string, call: Call, steps: nat) | Elsewhere(cpa: Directory)

  function WorldIn(f: Fleet, key: string): World
    requires key in f.accounts
  {
    World(f.accounts[key].slot, f.cpa, f.accounts[key].log)
  }

  function Put(f: Fleet, key: string, w: World): Fleet {
    Fleet(f.accounts[key := Account(w.slot, w.log)], w.cpa)
  }

  function FleetStep(f: Fleet, ev: FleetEvent): Fleet {
    match ev
    case At(key, call, steps) =>
      if key in f.accounts then Put(f, key, Step(WorldIn(f, key), key, Perform(call, steps))) else f
    case Elsewhere(cpa) => f.(cpa := cpa)
  }

  function FleetRun(f: Fleet, evs: seq<FleetEvent>): Fleet
    decreases |evs|
  {
    if evs == [] then f else FleetRun(FleetStep(f, evs[0]), evs[1..])
  }

  lemma {:induction false} FleetRunJoins(f: Fleet, first: seq<FleetEvent>, second: seq<FleetEvent>)
    ensures FleetRun(f, first + second) == FleetRun(FleetRun(f, first), second)
    decreases |first|
  {
    if first == [] {
      assert first + second == second;
    } else {
      assert (first + second)[1..] == first[1..] + second;
      FleetRunJoins(FleetStep(f, first[0]), first[1..], second);
    }
  }

  predicate HonestIn(f: Fleet, ev: FleetEvent) {
    match ev
    case At(key, call, steps) => key in f.accounts ==> Honest(WorldIn(f, key), key, Perform(call, steps))
    case Elsewhere(cpa) => forall key | key in f.accounts :: OutsideAllowed(f.cpa, cpa, key)
  }

  predicate HonestFleetRun(f: Fleet, evs: seq<FleetEvent>)
    decreases |evs|
  {
    evs != [] ==> HonestIn(f, evs[0]) && HonestFleetRun(FleetStep(f, evs[0]), evs[1..])
  }

  // ----- The scheduler's pass -----

  /** What a pass meets at one account: the time, the provider's reply, the directory. */
  datatype Visit = Visit(key: string, now: nat, reply: Reply, dir: DirectoryState, fault: Fault)

  /** Durable steps left after a plan that was allowed `n`. */
  function Left(plan: Plan, n: nat): (left: nat)
    ensures left <= n
    decreases plan
  {
    if plan.Return? then n else if n == 0 then 0 else Left(plan.rest, n - 1)
  }

  predicate ReadyToSync(slot: Slot) {
    slot.canonical.Some? && slot.canonical.value.cpaEnabled
    && slot.canonical.value.error.None? && !slot.canonical.value.inFlight
  }

  /** An unforced refresh of one account and then, judged by what is on disk after it, its
      sync. With `n` durable steps left, the refresh gets them all and the sync the rest. */
  function VisitEvents(f: Fleet, v: Visit, n: nat): seq<FleetEvent>
    requires v.key in f.accounts
  {
    var refresh := Refresh(false, v.now, v.reply);
    var w := WorldIn(f, v.key);
    var plan := PlanOf(w, v.key, refresh);
    [At(v.key, refresh, n)]
    + if ReadyToSync(RunPlan(w, plan, n).slot) then [At(v.key, Sync(v.dir, v.now, v.fault), Left(plan, n))] else []
  }

  /** Durable steps left after the visit. */
  function LeftAfter(f: Fleet, v: Visit, n: nat): nat
    requires v.key in f.accounts
  {
    var w := WorldIn(f, v.key);
    var plan := PlanOf(w, v.key, Refresh(false, v.now, v.reply));
    var w' := RunPlan(w, plan, n);
    if ReadyToSync(w'.slot) then Left(PlanOf(w', v.key, Sync(v.dir, v.now, v.fault)), Left(plan, n)) else Left(plan, n)
  }

  /** The calls of a whole pass, each visit starting from what the last one left. */
  function PassEvents(f: Fleet, visits: seq<Visit>, n: nat): seq<FleetEvent>
    requires forall v | v in visits :: v.key in f.accounts
    decreases |visits|
  {
    if visits == [] then []
    else
      var evs := VisitEvents(f, visits[0], n);
      VisitKeepsKeys(f, visits[0], n);
      evs + PassEvents(FleetRun(f, evs), visits[1..], LeftAfter(f, visits[0], n))
  }

  lemma VisitKeepsKeys(f: Fleet, v: Visit, n: nat)
    requires v.key in f.accounts
    ensures FleetRun(f, VisitEvents(f, v, n)).accounts.Keys == f.accounts.Keys
  {
    VisitMeaning(f, v, n);
  }

  /** A visit, call by call. */
  lemma VisitMeaning(f: Fleet, v: Visit, n: nat)
    requires v.key in f.accounts
    ensures var refresh := PlanOf(WorldIn(f, v.key), v.key, Refresh(false, v.now, v.reply));
            var w := RunPlan(WorldIn(f, v.key), refresh, n);
            var sync := PlanOf(w, v.key, Sync(v.dir, v.now, v.fault));
            FleetRun(f, VisitEvents(f, v, n)) ==
              Put(f, v.key, if ReadyToSync(w.slot) then RunPlan(w, sync, Left(refresh, n)) else w)
  {
    var refresh := PlanOf(WorldIn(f, v.key), v.key, Refresh(false, v.now, v.reply));
    var w := RunPlan(WorldIn(f, v.key), refresh, n);
    var evs := VisitEvents(f, v, n);
    var f1 := FleetStep(f, evs[0]);
    assert f1 == Put(f, v.key, w) && WorldIn(f1, v.key) == w;
    if ReadyToSync(w.slot) {
      var f2 := FleetStep(f1, evs[1]);
      assert evs[1..] == [evs[1]] && evs[1..][1..] == [];
      assert FleetRun(f1, evs[1..]) == FleetRun(f2, []) == f2;
      var w2 := RunPlan(w, PlanOf(w, v.key, Sync(v.dir, v.now, v.fault)), Left(refresh, n));
      assert f2.accounts == f.accounts[v.key := Account(w2.slot, w2.log)];
    } else {
      assert evs[1..] == [];
      assert FleetRun(f1, evs[1..]) == f1;
    }
  }

  /** The storage error a visit reports, if any. */
  function VisitError(f: Fleet, v: Visit, n: nat): Option<Error>
    requires v.key in f.accounts
  {
    var w := WorldIn(f, v.key);
    var plan := PlanOf(w, v.key, Refresh(false, v.now, v.reply));
    var w' := RunPlan(w, plan, n);
    var refreshed := StorageError(Answer(plan, n));
    if w'.slot.canonical.None? then Some(AccountMissing)
    else if !ReadyToSync(w'.slot) then refreshed
    else
      SyncError(Answer(PlanOf(w', v.key, Sync(v.dir, v.now, v.fault)), Left(plan, n))).Or(refreshed)
  }

  /** The last storage error of a pass. */
  function PassError(f: Fleet, visits: seq<Visit>, n: nat): Option<Error>
    requires forall v | v in visits :: v.key in f.accounts
    decreases |visits|
  {
    if visits == [] then None
    else
      VisitKeepsKeys(f, visits[0], n);
      PassError(FleetRun(f, VisitEvents(f, visits[0], n)), visits[1..], LeftAfter(f, visits[0], n))
        .Or(VisitError(f, visits[0], n))
  }

  /** The rest of a pass, one visit on. */
  lemma PassStep(f: Fleet, visits: seq<Visit>, i: nat, n: nat)
    requires i < |visits| && forall v | v in visits :: v.key in f.accounts
    ensures var f' := FleetRun(f, VisitEvents(f, visits[i], n));
            var n' := LeftAfter(f, visits[i], n);
            && f'.accounts.Keys == f.accounts.Keys
            && FleetRun(f, PassEvents(f, visits[i..], n)) == FleetRun(f', PassEvents(f', visits[i + 1..], n'))
            && PassError(f, visits[i..], n) == PassError(f', visits[i + 1..], n').Or(VisitError(f, visits[i], n))
  {
    VisitKeepsKeys(f, visits[i], n);
    var f' := FleetRun(f, VisitEvents(f, visits[i], n));
    var n' := LeftAfter(f, visits[i], n);
    assert visits[i..][0] == visits[i] && visits[i..][1..] == visits[i + 1..];
    FleetRunJoins(f, VisitEvents(f, visits[i], n), PassEvents(f', visits[i + 1..], n'));
  }

  function StorageError(r: Result<Grant, Error>): Option<Error> {
    if r == Err(Storage) || r == Err(InputTooLarge) then Some(r.error) else None
  }

  /** A sync also fails when it recorded a storage error. */
  function SyncError(r: Result<Grant, Error>): Option<Error> {
    if r.Ok? && !r.value.cpaSyncSuspended && r.value.cpaSyncError == Some(Storage) then Some(Storage)
    else StorageError(r)
  }
}
