/** What each Broker operation does to durable state, as the list of durable steps it
    takes in order. Stopping a plan after any number of steps is a crash, or a storage
    failure the operation gives up on, at that point. */
module BrokerPlans {
  import opened Basics
  import opened Grants
  import opened CpaDirectory

  // ----- Durable state -----

  /** One account's files: its canonical grant and its response journal. */
  datatype Slot = Slot(canonical: Option<Grant>, journal: Option<Grant>)

  /** A durable step. The first five all save the canonical grant file. */
  datatype Effect =
    | InstallImport(grant: Grant)            // an accepted import
    | SaveIntent(grant: Grant)               // "a token request is about to be sent"
    | SaveFailure(grant: Grant)              // the request's refusal or unknown outcome
    | Promote(grant: Grant)                  // the journal's credential
    | Amend(grant: Grant)                    // bookkeeping only
    | Send(token: string, at: nat)           // a token request carrying this refresh token
    | SaveJournal(grant: Grant)
    | DropJournal
    | CpaRename(from: string, to: string)
    | CpaWrite(name: string, value: Json)
  {
    predicate SavesCanonical() {
      InstallImport? || SaveIntent? || SaveFailure? || Promote? || Amend?
    }
  }

  /** One account's files, the shared consumer directory, and everything done so far for the account. */
  datatype World = World(slot: Slot, cpa: Directory, log: seq<Effect>)

  function ApplyToSlot(slot: Slot, e: Effect): Slot {
    if e.SavesCanonical() then slot.(canonical := Some(e.grant))
    else if e.SaveJournal? then slot.(journal := Some(e.grant))
    else if e.DropJournal? then slot.(journal := None)
    else slot
  }

  function ApplyToDirectory(cpa: Directory, e: Effect): Directory {
    match e
    case CpaRename(from, to) => if from in cpa then (cpa - {from})[to := cpa[from]] else cpa
    case CpaWrite(name, value) => cpa[name := Doc(value)]
    case _ => cpa
  }

  function Apply(w: World, e: Effect): World {
    World(ApplyToSlot(w.slot, e), ApplyToDirectory(w.cpa, e), w.log + [e])
  }

  // ----- Plans -----

  datatype Plan = Return(result: Result<Grant, Error>) | Then(effect: Effect, rest: Plan)

  /** The state after the first `n` durable steps of a plan. */
  function RunPlan(w: World, plan: Plan, n: nat): World
    decreases plan
  {
    if plan.Return? || n == 0 then w else RunPlan(Apply(w, plan.effect), plan.rest, n - 1)
  }

  /** The answer of a call allowed `n` durable steps. */
  function Answer(plan: Plan, n: nat): Result<Grant, Error>
    decreases plan
  {
    if plan.Return? then plan.result
    else if n == 0 then Err(Storage)
    else Answer(plan.rest, n - 1)
  }

  function Steps(plan: Plan): nat {
    if plan.Return? then 0 else 1 + Steps(plan.rest)
  }

  // ----- Import -----

  function Merge(current: Grant, incoming: Grant): Grant {
    incoming.(
      generation := current.generation + 1,
      refreshCount := current.refreshCount,
      automaticRefreshCount := current.automaticRefreshCount,
      cpaEnabled := false,
      cpaSyncedGeneration := current.cpaSyncedGeneration,
      cockpitSyncedGeneration := current.cockpitSyncedGeneration)
  }

  function Install(slot: Slot, g: Grant): Plan {
    Then(InstallImport(g), if slot.journal.Some? then Then(DropJournal, Return(Ok(g))) else Return(Ok(g)))
  }

  function ImportPlan(slot: Slot, key: string, body: GrantBody, now: nat): Plan {
    var parsed := ParseGrant(key, body, now);
    if parsed.Err? then Return(Err(parsed.error))
    else if slot.canonical.None? then Install(slot, parsed.value)
    else
      var current, incoming := slot.canonical.value, parsed.value;
      if !SameIdentity(current, incoming) then Return(Err(IdentityMismatch))
      else if current.handoffId == incoming.handoffId then Return(Ok(current))
      else if incoming.refreshToken == current.refreshToken then Return(Err(InvalidGrant))
      else Install(slot, Merge(current, incoming))
  }

  // ----- Refresh -----

  function Delay(failures: nat): nat {
    if failures == 1 then 900 else if failures == 2 then 3600 else 21600
  }

  const MAX_FAILURES: nat := 0xffff_ffff

  /** The record a failed request leaves. */
  function Failed(current: Grant, error: Error, now: nat): Grant {
    var failures := if current.failures < MAX_FAILURES then current.failures + 1 else current.failures;
    var g := current.(
      inFlight := false, error := Some(error), failures := failures,
      nextRetryAt := if error == ServiceUnavailable || error == Unchanged then Some(now + Delay(failures)) else None);
    if error == ReauthRequired
    then g.(cpaEnabled := false, cpaSyncError := Some(ReauthRequired), nextRetryAt := None)
    else g
  }

  /** The record a successful request leaves. */
  function Succeeded(current: Grant, rotated: Grant, force: bool): Grant {
    rotated.(
      automaticRefreshCount := if force then rotated.automaticRefreshCount else current.automaticRefreshCount + 1,
      inFlight := false, error := None, failures := 0, nextRetryAt := None)
  }

  predicate Due(g: Grant, force: bool, now: nat) {
    force || (g.DueAt() <= now && (g.nextRetryAt.None? || g.nextRetryAt.value <= now))
  }

  /** Turn the consumer projection off because the lineage can no longer be refreshed. */
  function Halt(g: Grant, error: Error): Grant {
    g.(cpaEnabled := false, nextRetryAt := None, cpaSyncError := Some(error))
  }

  function RecordReply(current: Grant, force: bool, now: nat, reply: Reply): Plan {
    match RefreshOutcome(current, reply)
    case Err(error) => Then(SaveFailure(Failed(current, error, now)), Return(Err(error)))
    case Ok(rotated) =>
      var next := Succeeded(current, rotated, force);
      Then(SaveJournal(next),
        if !SameIdentity(current, next) then Return(Err(IdentityMismatch))
        else Then(Promote(next), Then(DropJournal, Return(Ok(next)))))
  }

  function RequestPlan(current: Grant, force: bool, now: nat, reply: Reply): Plan {
    var flying := current.(inFlight := true);
    var recorded := RecordReply(flying, force, now, reply);
    Then(SaveIntent(flying),
      if reply.NoClient? then recorded else Then(Send(current.refreshToken, now), recorded))
  }

  function RefreshPlan(slot: Slot, force: bool, now: nat, reply: Reply): Plan {
    if slot.canonical.None? then Return(Err(AccountMissing))
    else
      var current := slot.canonical.value;
      if current.error == Some(ReauthRequired) then
        if current.cpaEnabled || current.nextRetryAt.Some? || current.inFlight
        then Then(Amend(Halt(current, ReauthRequired).(inFlight := false)), Return(Err(ReauthRequired)))
        else Return(Err(ReauthRequired))
      else if slot.journal.Some? then
        var candidate := slot.journal.value;
        if !SameIdentity(current, candidate) then Return(Err(IdentityMismatch))
        else if candidate.generation < current.generation then Return(Err(RecoveryRequired))
        else
          var promoted := candidate.(inFlight := false);
          Then(Promote(promoted), Then(DropJournal, Return(Ok(promoted))))
      else if current.Blocked() then
        var error := current.BlockedBy();
        if current.cpaEnabled || current.nextRetryAt.Some?
        then Then(Amend(Halt(current, error)), Return(Err(error)))
        else Return(Err(error))
      else if !Due(current, force, now) then Return(Ok(current))
      else RequestPlan(current, force, now, reply)
  }

  // ----- Settings -----

  function SetCpaPlan(slot: Slot, enabled: bool, hasDirectory: bool): Plan {
    if slot.canonical.None? then Return(Err(AccountMissing))
    else
      var current := slot.canonical.value;
      if enabled && current.Blocked() then Return(Err(current.BlockedBy()))
      else if enabled && !hasDirectory then Return(Err(Config))
      else
        var g := current.(cpaEnabled := enabled, cpaSyncSuspended := false);
        var g' := if enabled then g.(cpaSyncedGeneration := None, cpaSyncError := None) else g;
        Then(Amend(g'), Return(Ok(g')))
  }

  function AcknowledgePlan(slot: Slot, generation: nat): Plan {
    if slot.canonical.None? then Return(Err(AccountMissing))
    else
      var current := slot.canonical.value;
      if generation != current.generation then Return(Err(ConsumerConflict))
      else
        var g := current.(cockpitSyncedGeneration := Some(generation));
        Then(Amend(g), Return(Ok(g)))
  }

  // ----- Consumer sync -----

  datatype DirectoryState = NotConfigured | LinkedDirectory | UnreadableDirectory | Listed(names: seq<string>)

  /** What goes wrong after the scan and is survived and recorded: the destination turns out
      to be taken, the old file cannot be renamed, or an I/O error. */
  datatype Fault = NoFault | DestinationTaken | RenameRefused | RenameUnsynced | WriteRefused | WriteUnsynced

  /** The file steps of a sync, and the error to record, if any. */
  datatype FileWork = FileWork(steps: seq<Effect>, error: Option<Error>)

  function WriteWork(cpa: Directory, destination: string, value: Json, before: seq<Effect>, fault: Fault): FileWork {
    if (destination in cpa && cpa[destination].Link?) || fault.WriteRefused? then FileWork(before, Some(Storage))
    else FileWork(before + [CpaWrite(destination, value)], if fault.WriteUnsynced? then Some(Storage) else None)
  }

  function FileWorkFor(cpa: Directory, key: string, g: Grant, found: Found, now: nat, fault: Fault): FileWork {
    var destination := CanonicalName(g, key);
    if found.None? && g.cpaSyncedGeneration.Some? then FileWork([], Some(ConsumerMissing))
    else if g.expiresAt <= now then FileWork([], Some(ReauthRequired))
    else if found.None? then WriteWork(cpa, destination, Projection(g), [], fault)
    else
      var (name, existing) := found.value;
      var value := ProjectionOver(g, Some(existing));
      if name == destination then
        if existing == value then FileWork([], None) else WriteWork(cpa, destination, value, [], fault)
      else if destination in cpa then
        FileWork([], Some(if cpa[destination].Link? then Storage else ConsumerConflict))
      else if fault.DestinationTaken? then FileWork([], Some(ConsumerConflict))
      else if fault.RenameRefused? then FileWork([], Some(Storage))
      else
        var moved := [CpaRename(name, destination)];
        if fault.RenameUnsynced? then FileWork(moved, Some(Storage))
        else if existing == value then FileWork(moved, None)
        else WriteWork(cpa, destination, value, moved, fault)
  }

  function ProjectWork(cpa: Directory, key: string, g: Grant, dir: DirectoryState, now: nat, fault: Fault): FileWork
    requires dir.UnreadableDirectory? || dir.Listed?
  {
    if dir.UnreadableDirectory? then FileWork([], Some(Storage))
    else
      var found := Scan(dir.names, cpa, key, g);
      if found.Err? then FileWork([], Some(found.error))
      else FileWorkFor(cpa, key, g, found.value, now, fault)
  }

  /** A sync's file work renames and writes, and does nothing else. */
  lemma FileStepsOnly(cpa: Directory, key: string, g: Grant, dir: DirectoryState, now: nat, fault: Fault)
    requires dir.UnreadableDirectory? || dir.Listed?
    ensures forall e | e in ProjectWork(cpa, key, g, dir, now, fault).steps :: e.CpaRename? || e.CpaWrite?
  {
  }

  /** What the sync writes back into the grant. */
  function RecordSync(g: Grant, error: Option<Error>): Grant {
    match error
    case None => g.(cpaSyncedGeneration := Some(g.generation), cpaSyncError := None)
    case Some(ConsumerMissing) => g.(cpaEnabled := false, cpaSyncSuspended := true, cpaSyncError := Some(ConsumerConflict))
    case Some(e) => g.(cpaSyncError := Some(e))
  }

  function Prepend(steps: seq<Effect>, plan: Plan): Plan {
    if steps == [] then plan else Then(steps[0], Prepend(steps[1..], plan))
  }

  function FinishSync(g: Grant, error: Option<Error>): Plan {
    var g' := RecordSync(g, error);
    if g.cpaSyncedGeneration != g'.cpaSyncedGeneration || g.cpaSyncError != g'.cpaSyncError
    then Then(Amend(g'), Return(Ok(g')))
    else Return(Ok(g'))
  }

  /** The sync reaches the consumer directory. */
  predicate Projects(g: Grant) {
    !g.Blocked() && g.cpaEnabled && !g.cpaSyncSuspended
  }

  function SyncPlan(slot: Slot, cpa: Directory, key: string, dir: DirectoryState, now: nat, fault: Fault): Plan {
    if slot.canonical.None? then Return(Err(AccountMissing))
    else
      var g := slot.canonical.value;
      if g.Blocked() then
        if g.cpaEnabled || g.nextRetryAt.Some? then
          var halted := Halt(g, g.BlockedBy());
          Then(Amend(halted), Return(Ok(halted)))
        else Return(Ok(g))
      else if !Projects(g) then Return(Ok(g))
      else match dir
        case NotConfigured => Return(Err(Config))
        case LinkedDirectory => Return(Err(Storage))
        case _ =>
          var work := ProjectWork(cpa, key, g, dir, now, fault);
          Prepend(work.steps, FinishSync(g, work.error))
  }
}
