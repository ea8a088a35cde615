/** The Broker's store: one grant file and one journal per account key, and the shared
    consumer directory, updated in place. `power` is how many more durable steps the
    process will live to complete, so each contract covers a crash at every step: the
    files end up exactly where the operation's plan, cut off there, leaves them. */
module BrokerStores {
  import opened Basics
  import opened Grants
  import opened CpaDirectory
  import opened BrokerPlans
  import opened BrokerRuns
  import opened BrokerFleet

  predicate ValidKey(key: string) {
    && 0 < |key| <= 128
    && forall c | c in key :: ('a' <= c <= 'z') || ('A' <= c <= 'Z') || ('0' <= c <= '9') || c in {'_', '-', '.', '@', '+'}
  }

  class BrokerStore {
    var slots: map<string, Slot>
    var cpa: Directory
    var power: nat
    ghost var logs: map<string, seq<Effect>>

    constructor (slots: map<string, Slot>, cpa: Directory, power: nat)
      ensures this.slots == slots && this.cpa == cpa && this.power == power && logs == map[]
    {
      this.slots, this.cpa, this.power, this.logs := slots, cpa, power, map[];
    }

    function SlotOf(key: string): Slot
      reads this
    {
      if key in slots then slots[key] else Slot(None, None)
    }

    ghost function LogOf(key: string): seq<Effect>
      reads this
    {
      if key in logs then logs[key] else []
    }

    ghost function WorldOf(key: string): World
      reads this
    {
      World(SlotOf(key), cpa, LogOf(key))
    }

    /** No other account's files or history changed. */
    twostate predicate OnlyTouches(key: string)
      reads this
    {
      forall k | k != key :: SlotOf(k) == old(SlotOf(k)) && LogOf(k) == old(LogOf(k))
    }

    /** This account went through exactly this plan, as far as the process lived. */
    twostate predicate Ran(key: string, plan: Plan)
      reads this
    {
      && WorldOf(key) == RunPlan(old(WorldOf(key)), plan, old(power))
      && power == Left(plan, old(power))
      && OnlyTouches(key)
    }

    /** One durable step, the next of the plan `todo`. */
    method Durable(key: string, e: Effect, ghost todo: Plan) returns (ok: bool)
      requires todo.Then? && todo.effect == e
      modifies this
      ensures ok == (0 < old(power))
      ensures WorldOf(key) == if ok then Apply(old(WorldOf(key)), e) else old(WorldOf(key))
      ensures power == if ok then old(power) - 1 else 0
      ensures OnlyTouches(key)
      ensures RunPlan(old(WorldOf(key)), todo, old(power)) == RunPlan(WorldOf(key), todo.rest, power)
      ensures Answer(todo, old(power)) == if ok then Answer(todo.rest, power) else Err(Storage)
      ensures Left(todo, old(power)) == Left(todo.rest, power)
    {
      ok := 0 < power;
      if ok {
        power := power - 1;
        slots := slots[key := ApplyToSlot(SlotOf(key), e)];
        cpa := ApplyToDirectory(cpa, e);
        logs := logs[key := LogOf(key) + [e]];
      }
    }

    method ImportGrant(key: string, body: GrantBody, now: nat) returns (r: Result<Grant, Error>)
      modifies this
      ensures !ValidKey(key) ==> r == Err(Config) && Ran(key, Return(r))
      ensures ValidKey(key) ==>
                var plan := ImportPlan(old(SlotOf(key)), key, body, now);
                Ran(key, plan) && r == Answer(plan, old(power))
    {
      if !ValidKey(key) {
        return Err(Config);
      }
      ghost var todo := ImportPlan(SlotOf(key), key, body, now);
      var parsed := ParseGrant(key, body, now);
      if parsed.Err? {
        return Err(parsed.error);
      }
      var incoming := parsed.value;
      var slot := SlotOf(key);
      if slot.canonical.Some? {
        var current := slot.canonical.value;
        if !SameIdentity(current, incoming) {
          return Err(IdentityMismatch);
        }
        if current.handoffId == incoming.handoffId {
          return Ok(current);
        }
        if incoming.refreshToken == current.refreshToken {
          return Err(InvalidGrant);
        }
        incoming := Merge(current, incoming);
      }
      assert todo == Install(slot, incoming);
      var ok := Durable(key, InstallImport(incoming), todo);
      if !ok {
        return Err(Storage);
      }
      todo := todo.rest;
      if SlotOf(key).journal.Some? {
        ok := Durable(key, DropJournal, todo);
        if !ok {
          return Err(Storage);
        }
        todo := todo.rest;
      }
      return Ok(incoming);
    }

    method Refresh(key: string, force: bool, now: nat, reply: Reply) returns (r: Result<Grant, Error>)
      modifies this
      ensures !ValidKey(key) ==> r == Err(Config) && Ran(key, Return(r))
      ensures ValidKey(key) ==>
                var plan := RefreshPlan(old(SlotOf(key)), force, now, reply);
                Ran(key, plan) && r == Answer(plan, old(power))
    {
      if !ValidKey(key) {
        return Err(Config);
      }
      var slot := SlotOf(key);
      if slot.canonical.None? {
        return Err(AccountMissing);
      }
      var current := slot.canonical.value;
      ghost var todo := RefreshPlan(slot, force, now, reply);
      var ok;
      if current.error == Some(ReauthRequired) {
        if current.cpaEnabled || current.nextRetryAt.Some? || current.inFlight {
          ok := Durable(key, Amend(Halt(current, ReauthRequired).(inFlight := false)), todo);
          if !ok { return Err(Storage); }
          todo := todo.rest;
        }
        return Err(ReauthRequired);
      }
      if slot.journal.Some? {
        var candidate := slot.journal.value;
        if !SameIdentity(current, candidate) {
          return Err(IdentityMismatch);
        }
        if candidate.generation < current.generation {
          return Err(RecoveryRequired);
        }
        candidate := candidate.(inFlight := false);
        ok := Durable(key, Promote(candidate), todo);
        if !ok { return Err(Storage); }
        todo := todo.rest;
        ok := Durable(key, DropJournal, todo);
        if !ok { return Err(Storage); }
        todo := todo.rest;
        return Ok(candidate);
      }
      if current.Blocked() {
        var error := current.BlockedBy();
        if current.cpaEnabled || current.nextRetryAt.Some? {
          ok := Durable(key, Amend(Halt(current, error)), todo);
          if !ok { return Err(Storage); }
          todo := todo.rest;
        }
        return Err(error);
      }
      if !Due(current, force, now) {
        return Ok(current);
      }
      r := Request(key, current, force, now, reply);
    }

    /** Write the intent, ask the provider, and record what it said. */
    method Request(key: string, current: Grant, force: bool, now: nat, reply: Reply) returns (r: Result<Grant, Error>)
      modifies this
      ensures var plan := RequestPlan(current, force, now, reply);
              Ran(key, plan) && r == Answer(plan, old(power))
    {
      ghost var todo := RequestPlan(current, force, now, reply);
      var flying := current.(inFlight := true);
      var ok := Durable(key, SaveIntent(flying), todo);
      if !ok { return Err(Storage); }
      todo := todo.rest;
      if !reply.NoClient? {
        ok := Durable(key, Send(flying.refreshToken, now), todo);
        if !ok { return Err(Storage); }
        todo := todo.rest;
      }
      assert todo == RecordReply(flying, force, now, reply);
      match RefreshOutcome(flying, reply) {
        case Err(error) =>
          ok := Durable(key, SaveFailure(Failed(flying, error, now)), todo);
          if !ok { return Err(Storage); }
          todo := todo.rest;
          return Err(error);
        case Ok(rotated) =>
          var next := Succeeded(flying, rotated, force);
          ok := Durable(key, SaveJournal(next), todo);
          if !ok { return Err(Storage); }
          todo := todo.rest;
          if !SameIdentity(flying, next) {
            return Err(IdentityMismatch);
          }
          ok := Durable(key, Promote(next), todo);
          if !ok { return Err(Storage); }
          todo := todo.rest;
          ok := Durable(key, DropJournal, todo);
          if !ok { return Err(Storage); }
          todo := todo.rest;
          return Ok(next);
      }
    }

    method SetCpaEnabled(key: string, enabled: bool, hasDirectory: bool) returns (r: Result<Grant, Error>)
      modifies this
      ensures !ValidKey(key) ==> r == Err(Config) && Ran(key, Return(r))
      ensures ValidKey(key) ==>
                var plan := SetCpaPlan(old(SlotOf(key)), enabled, hasDirectory);
                Ran(key, plan) && r == Answer(plan, old(power))
    {
      if !ValidKey(key) {
        return Err(Config);
      }
      var slot := SlotOf(key);
      if slot.canonical.None? {
        return Err(AccountMissing);
      }
      var current := slot.canonical.value;
      ghost var todo := SetCpaPlan(slot, enabled, hasDirectory);
      if enabled && current.Blocked() {
        return Err(current.BlockedBy());
      }
      if enabled && !hasDirectory {
        return Err(Config);
      }
      current := current.(cpaEnabled := enabled, cpaSyncSuspended := false);
      if enabled {
        current := current.(cpaSyncedGeneration := None, cpaSyncError := None);
      }
      var ok := Durable(key, Amend(current), todo);
      if !ok { return Err(Storage); }
      todo := todo.rest;
      return Ok(current);
    }

    method AcknowledgeCockpit(key: string, generation: nat) returns (r: Result<Grant, Error>)
      modifies this
      ensures !ValidKey(key) ==> r == Err(Config) && Ran(key, Return(r))
      ensures ValidKey(key) ==>
                var plan := AcknowledgePlan(old(SlotOf(key)), generation);
                Ran(key, plan) && r == Answer(plan, old(power))
    {
      if !ValidKey(key) {
        return Err(Config);
      }
      var slot := SlotOf(key);
      if slot.canonical.None? {
        return Err(AccountMissing);
      }
      var current := slot.canonical.value;
      ghost var todo := AcknowledgePlan(slot, generation);
      if generation != current.generation {
        return Err(ConsumerConflict);
      }
      current := current.(cockpitSyncedGeneration := Some(generation));
      var ok := Durable(key, Amend(current), todo);
      if !ok { return Err(Storage); }
      todo := todo.rest;
      return Ok(current);
    }

    method SyncCpa(key: string, dir: DirectoryState, now: nat, fault: Fault) returns (r: Result<Grant, Error>)
      modifies this
      ensures !ValidKey(key) ==> r == Err(Config) && Ran(key, Return(r))
      ensures ValidKey(key) ==>
                var plan := SyncPlan(old(SlotOf(key)), old(cpa), key, dir, now, fault);
                Ran(key, plan) && r == Answer(plan, old(power))
    {
      if !ValidKey(key) {
        return Err(Config);
      }
      var slot := SlotOf(key);
      if slot.canonical.None? {
        return Err(AccountMissing);
      }
      var grant := slot.canonical.value;
      ghost var plan := SyncPlan(slot, cpa, key, dir, now, fault);
      ghost var todo := plan;
      var ok;
      if grant.Blocked() {
        if grant.cpaEnabled || grant.nextRetryAt.Some? {
          grant := Halt(grant, grant.BlockedBy());
          ok := Durable(key, Amend(grant), todo);
          if !ok { return Err(Storage); }
          todo := todo.rest;
        }
        return Ok(grant);
      }
      if !grant.cpaEnabled || grant.cpaSyncSuspended {
        return Ok(grant);
      }
      if dir.NotConfigured? {
        return Err(Config);
      }
      if dir.LinkedDirectory? {
        return Err(Storage);
      }
      var work := FileWork([], Some(Storage));
      if dir.Listed? {
        var found := FindOwnFile(dir.names, cpa, key, grant);
        work := if found.Err? then FileWork([], Some(found.error))
                else FileWorkFor(cpa, key, grant, found.value, now, fault);
      }
      assert todo == Prepend(work.steps, FinishSync(grant, work.error));
      var i := 0;
      while i < |work.steps|
        invariant 0 <= i <= |work.steps|
        invariant todo == Prepend(work.steps[i..], FinishSync(grant, work.error))
        invariant RunPlan(old(WorldOf(key)), plan, old(power)) == RunPlan(WorldOf(key), todo, power)
        invariant Answer(plan, old(power)) == Answer(todo, power)
        invariant Left(plan, old(power)) == Left(todo, power)
        invariant OnlyTouches(key)
      {
        assert work.steps[i..][1..] == work.steps[i + 1..];
        ok := Durable(key, work.steps[i], todo);
        if !ok { return Err(Storage); }
        todo := todo.rest;
        i := i + 1;
      }
      var previous := (grant.cpaSyncedGeneration, grant.cpaSyncError);
      grant := RecordSync(grant, work.error);
      if previous != (grant.cpaSyncedGeneration, grant.cpaSyncError) {
        ok := Durable(key, Amend(grant), todo);
        if !ok { return Err(Storage); }
        todo := todo.rest;
      }
      return Ok(grant);
    }

    /** The files of these accounts. */
    ghost function View(keys: set<string>): Fleet
      reads this
    {
      Fleet(map k | k in keys :: Account(SlotOf(k), LogOf(k)), cpa)
    }

    /** One account of a scheduler pass: an unforced refresh, then, from what is on disk after
        it, a sync if the account is healthy and enabled. */
    method CycleAccount(v: Visit, ghost keys: set<string>) returns (error: Option<Error>)
      requires ValidKey(v.key) && v.key in keys
      modifies this
      ensures View(keys) == FleetRun(old(View(keys)), VisitEvents(old(View(keys)), v, old(power)))
      ensures power == LeftAfter(old(View(keys)), v, old(power))
      ensures error == VisitError(old(View(keys)), v, old(power))
      ensures OnlyTouches(v.key)
    {
      ghost var before, lives := View(keys), power;
      ghost var start := WorldOf(v.key);
      assert WorldIn(before, v.key) == start;
      ghost var plan := PlanOf(start, v.key, BrokerRuns.Refresh(false, v.now, v.reply));
      var refreshed := Refresh(v.key, false, v.now, v.reply);
      ghost var middle, left := WorldOf(v.key), power;
      assert middle == RunPlan(start, plan, lives) && left == Left(plan, lives);
      ghost var sync := PlanOf(middle, v.key, BrokerRuns.Sync(v.dir, v.now, v.fault));
      error := StorageError(refreshed);
      var slot := SlotOf(v.key);
      if slot.canonical.None? {
        error := Some(AccountMissing);
      } else if ReadyToSync(slot) {
        var synced := SyncCpa(v.key, v.dir, v.now, v.fault);
        error := SyncError(synced).Or(error);
      }
      ghost var end := WorldOf(v.key);
      assert end == if ReadyToSync(middle.slot) then RunPlan(middle, sync, left) else middle;
      assert View(keys) == Put(before, v.key, end);
      VisitMeaning(before, v, lives);
    }

    /** A scheduler pass is exactly its visits' calls, one account after another, and reports
        the last storage error it met. `keys` are the accounts of the store: whatever set the
        visited ones are taken from, nothing outside it changes. */
    method RunCycle(visits: seq<Visit>, ghost keys: set<string>) returns (error: Option<Error>)
      requires forall v | v in visits :: ValidKey(v.key) && v.key in keys
      modifies this
      ensures View(keys) == FleetRun(old(View(keys)), PassEvents(old(View(keys)), visits, old(power)))
      ensures error == PassError(old(View(keys)), visits, old(power))
      ensures forall k | k !in keys :: SlotOf(k) == old(SlotOf(k)) && LogOf(k) == old(LogOf(k))
    {
      ghost var end := FleetRun(View(keys), PassEvents(View(keys), visits, power));
      ghost var report := PassError(View(keys), visits, power);
      assert visits[0..] == visits;
      error := None;
      for i := 0 to |visits|
        invariant forall k | k !in keys :: SlotOf(k) == old(SlotOf(k)) && LogOf(k) == old(LogOf(k))
        invariant end == FleetRun(View(keys), PassEvents(View(keys), visits[i..], power))
        invariant report == PassError(View(keys), visits[i..], power).Or(error)
      {
        assert visits[i] in visits;
        ghost var now, left := View(keys), power;
        PassStep(now, visits, i, left);
        ghost var later, rest := FleetRun(now, VisitEvents(now, visits[i], left)), LeftAfter(now, visits[i], left);
        var failed := CycleAccount(visits[i], keys);
        assert View(keys) == later && power == rest;
        error := failed.Or(error);
      }
    }
  }
}
