/** What a completed sync comes to, told from the grant, the directory and the clock: when it
    publishes, what it records when it does not, and what a failing file step leaves; and what
    the settings of the consumer and its acknowledgements come to. */
module SyncOutcomes {
  import opened Basics
  import opened Grants
  import opened CpaDirectory
  import opened BrokerPlans
  import opened BrokerRuns
  import opened BrokerReplies
  import opened CpaSync

  /** The consumer is on and nothing is wrong with the grant. */
  predicate WantsPublishing(g: Grant) {
    && g.cpaEnabled && !g.cpaSyncSuspended
    && !g.inFlight && g.error != Some(ReauthRequired) && g.error != Some(RecoveryRequired)
  }

  /** The account has a file in the directory. */
  ghost predicate HasFile(cpa: Directory, key: string) {
    exists n :: IsOwnFile(n, cpa, key)
  }

  /** Nothing in the directory stands in the way, no synced file is missing, and the credential
      has not expired. */
  ghost predicate Unobstructed(cpa: Directory, key: string, g: Grant, now: nat) {
    && AtMostOneOwnFile(cpa, key)
    && (forall n | n in cpa :: !Suspicious(n, cpa, key, g) && !Squats(n, cpa, key, g))
    && (g.cpaSyncedGeneration.Some? ==> HasFile(cpa, key))
    && now < g.expiresAt
  }

  lemma MustFailExactlyWhen(cpa: Directory, key: string, g: Grant, now: nat)
    ensures MustFail(cpa, key, g, now) <==> !Unobstructed(cpa, key, g, now)
  {
    forall n
      ensures Refuses(n, cpa, key, g) <==> Suspicious(n, cpa, key, g) || Squats(n, cpa, key, g)
    {
      RefusesExactlyWhen(n, cpa, key, g);
    }
  }

  lemma {:induction false} PrependedSteps(steps: seq<Effect>, plan: Plan)
    ensures Steps(Prepend(steps, plan)) == |steps| + Steps(plan)
    decreases |steps|
  {
    if steps != [] {
      PrependedSteps(steps[1..], plan);
    }
  }

  /** A sync takes at most a rename, a write and a record. */
  lemma SyncStepsAreFew(slot: Slot, cpa: Directory, key: string, dir: DirectoryState, now: nat, fault: Fault)
    ensures Steps(SyncPlan(slot, cpa, key, dir, now, fault)) <= 3
  {
    var plan := SyncPlan(slot, cpa, key, dir, now, fault);
    if plan.Then? && slot.canonical.Some? && !slot.canonical.value.Blocked() {
      var g := slot.canonical.value;
      var work := ProjectWork(cpa, key, g, dir, now, fault);
      assert |work.steps| <= 2 && Steps(FinishSync(g, work.error)) <= 1;
      PrependedSteps(work.steps, FinishSync(g, work.error));
    }
  }

  /** The consumer's directory after a sync that published `g`: the account's one file bears the
      email-derived name and carries the credential, an earlier file's switch is kept, and
      nobody else's file is touched. */
  ghost predicate Delivered(before: Directory, after: Directory, key: string, g: Grant) {
    var name := CanonicalName(g, key);
    && name in after && after[name].Doc? && Carries(after[name].value, g)
    && (forall n :: IsOwnFile(n, after, key) <==> n == name)
    && (forall n | IsOwnFile(n, before, key) :: after[name].value.Get(Disabled) == before[n].value.Get(Disabled))
    && (forall n | !IsOwnFile(n, before, key) && n != name ::
          (n in after <==> n in before) && (n in before ==> after[n] == before[n]))
    && (name in before ==> IsOwnFile(name, before, key))
  }

  lemma PublishedIsDelivered(before: Directory, after: Directory, key: string, g: Grant)
    requires Published(before, after, key, g) && AtMostOneOwnFile(before, key) && g.key == key
    requires CanonicalName(g, key) in before ==> IsOwnFile(CanonicalName(g, key), before, key)
    ensures Delivered(before, after, key, g)
  {
    var own := OwnDocument(before, key);
    ProjectionCarriesTheCredential(g, own);
    ProjectionIsCurrent(g, own);
  }

  /** For every directory: a completed sync of an enabled, unblocked account publishes exactly
      when at most one file carries the account's marker, no file is suspicious, no file without
      the marker has one of the account's two names, no synced file is missing, and the
      credential has not expired. Otherwise it touches no file and records an error. */
  lemma SyncPublishesExactlyWhen(w: World, key: string, listing: seq<string>, now: nat, n: nat)
    requires w.slot.canonical.Some? && w.slot.canonical.value.key == key && WantsPublishing(w.slot.canonical.value)
    requires Lists(listing, w.cpa) && 3 <= n
    ensures var g := w.slot.canonical.value;
            var w' := Step(w, key, Perform(Sync(Listed(listing), now, NoFault), n));
            if Unobstructed(w.cpa, key, g, now) then
              && w'.slot.canonical == Some(g.(cpaSyncedGeneration := Some(g.generation), cpaSyncError := None))
              && Delivered(w.cpa, w'.cpa, key, g)
            else
              && w'.cpa == w.cpa && w'.slot.canonical.Some?
              && SameCredential(w'.slot.canonical.value, g)
              && w'.slot.canonical.value.cpaSyncedGeneration == g.cpaSyncedGeneration
              && w'.slot.canonical.value.cpaSyncError.Some?
  {
    var g := w.slot.canonical.value;
    var plan := PlanOf(w, key, Sync(Listed(listing), now, NoFault));
    SyncStepsAreFew(w.slot, w.cpa, key, Listed(listing), now, NoFault);
    CompleteIsEveryStep(w, plan, n);
    MustFailExactlyWhen(w.cpa, key, g, now);
    SyncPublishesOrTouchesNothing(w, key, listing, now);
    if Unobstructed(w.cpa, key, g, now) {
      var name := CanonicalName(g, key);
      CanonicalNameIsScanned(g, key);
      assert name in w.cpa ==> !Squats(name, w.cpa, key, g) && !Suspicious(name, w.cpa, key, g);
      PublishedIsDelivered(w.cpa, Complete(w, plan).cpa, key, g);
    }
  }

  /** Why a sync of a listed directory failed, and what it leaves switched: a missing synced file
      turns the consumer off, and anything else leaves it on to try again. */
  lemma FailedSyncRecordsWhy(w: World, key: string, listing: seq<string>, now: nat, n: nat)
    requires w.slot.canonical.Some? && w.slot.canonical.value.key == key && WantsPublishing(w.slot.canonical.value)
    requires Lists(listing, w.cpa) && 3 <= n && !Unobstructed(w.cpa, key, w.slot.canonical.value, now)
    ensures var g := w.slot.canonical.value;
            var w' := Step(w, key, Perform(Sync(Listed(listing), now, NoFault), n));
            && w'.slot.canonical.Some? && w'.slot.canonical.value.cpaSyncError.Some?
            && var error := w'.slot.canonical.value.cpaSyncError.value;
               if !Clear(w.cpa, key, g) then
                 && w'.slot.canonical == Some(g.(cpaSyncError := Some(error)))
                 && (|| (exists f | f in listing :: Explains(f, w.cpa, key, g, error))
                     || (error == ConsumerConflict && TwoOwnFiles(listing, w.cpa, key)))
               else if g.cpaSyncedGeneration.Some? && !HasFile(w.cpa, key) then
                 && error == ConsumerConflict
                 && (g.cpaSyncError != Some(ConsumerConflict) ==>
                       w'.slot.canonical ==
                         Some(g.(cpaEnabled := false, cpaSyncSuspended := true, cpaSyncError := Some(error))))
               else
                 w'.slot.canonical == Some(g.(cpaSyncError := Some(ReauthRequired)))
  {
    var g := w.slot.canonical.value;
    var plan := PlanOf(w, key, Sync(Listed(listing), now, NoFault));
    SyncStepsAreFew(w.slot, w.cpa, key, Listed(listing), now, NoFault);
    CompleteIsEveryStep(w, plan, n);
    ScanSucceedsExactlyWhen(listing, w.cpa, key, g);
    var work := ProjectWork(w.cpa, key, g, Listed(listing), now, NoFault);
    FileWorkPublishes(w.cpa, key, g, listing, now);
    MustFailExactlyWhen(w.cpa, key, g, now);
    CompletePrepended(w, [], g, work.error);
    assert plan == Prepend([], FinishSync(g, work.error));
    if !Clear(w.cpa, key, g) {
      ScanErrorIsExplained(listing, w.cpa, key, g);
    } else if HasFile(w.cpa, key) {
      var f :| IsOwnFile(f, w.cpa, key);
      assert Scan(listing, w.cpa, key, g) == Ok(Some((f, w.cpa[f].value)));
    }
  }

  /** A sync that does not get as far as the directory's files: nothing is done for an account
      whose consumer is off, a blocked one has it switched off, and a directory that is not
      configured, a link, or cannot be listed is reported. */
  lemma SyncWithoutFiles(w: World, key: string, dir: DirectoryState, now: nat, fault: Fault, n: nat)
    requires w.slot.canonical.Some? && 1 <= n
    requires dir.Listed? ==> !WantsPublishing(w.slot.canonical.value)
    ensures var g := w.slot.canonical.value;
            var w' := Step(w, key, Perform(Sync(dir, now, fault), n));
            var answer := Answer(PlanOf(w, key, Sync(dir, now, fault)), n);
            && w'.cpa == w.cpa
            && if g.inFlight || g.error == Some(ReauthRequired) || g.error == Some(RecoveryRequired) then
                 var off := SwitchedOff(g, if g.error.Some? then g.error.value else RecoveryRequired);
                 if g.cpaEnabled || g.nextRetryAt.Some?
                 then w'.slot == w.slot.(canonical := Some(off)) && answer == Ok(off)
                 else w' == w && answer == Ok(g)
               else if !g.cpaEnabled || g.cpaSyncSuspended then w' == w && answer == Ok(g)
               else if dir.NotConfigured? then w' == w && answer == Err(Config)
               else if dir.LinkedDirectory? then w' == w && answer == Err(Storage)
               else
                 var failed := g.(cpaSyncError := Some(Storage));
                 w'.slot == w.slot.(canonical := Some(failed)) && answer == Ok(failed)
  {
    var plan := PlanOf(w, key, Sync(dir, now, fault));
    var g := w.slot.canonical.value;
    if WantsPublishing(g) && dir.UnreadableDirectory? {
      assert plan == FinishSync(g, Some(Storage));
    }
    if plan.Then? {
      OneStep(w, plan.effect, plan.rest, n);
    }
  }

  /** The file to be replaced has another name than the one it is to have. */
  ghost predicate MustMove(cpa: Directory, key: string, g: Grant) {
    exists n :: IsOwnFile(n, cpa, key) && n != CanonicalName(g, key)
  }

  /** No file of the account says what is to be said. */
  ghost predicate MustWrite(cpa: Directory, key: string, g: Grant) {
    !exists n :: IsOwnFile(n, cpa, key) && cpa[n].value == ProjectionOver(g, Some(cpa[n].value))
  }

  /** The account's file has been renamed, whatever it said, and all others are as before. */
  ghost predicate OnlyMoved(before: Directory, after: Directory, key: string, g: Grant) {
    forall n | IsOwnFile(n, before, key) ::
      && CanonicalName(g, key) in after && after[CanonicalName(g, key)] == before[n]
      && after - {CanonicalName(g, key)} == before - {n}
  }

  /** The fault meets a step that the sync has to take. */
  ghost predicate Strikes(cpa: Directory, key: string, g: Grant, fault: Fault) {
    match fault
    case NoFault => false
    case DestinationTaken => MustMove(cpa, key, g)
    case RenameRefused => MustMove(cpa, key, g)
    case RenameUnsynced => MustMove(cpa, key, g)
    case WriteRefused => MustWrite(cpa, key, g)
    case WriteUnsynced => MustWrite(cpa, key, g)
  }

  /** What is left in the directory when a file step fails. */
  ghost predicate LeftByFault(before: Directory, after: Directory, key: string, g: Grant, fault: Fault) {
    match fault
    case NoFault => Published(before, after, key, g)
    case DestinationTaken => after == before
    case RenameRefused => after == before
    case RenameUnsynced => OnlyMoved(before, after, key, g)
    case WriteRefused => if MustMove(before, key, g) then OnlyMoved(before, after, key, g) else after == before
    case WriteUnsynced => Published(before, after, key, g)
  }

  /** The file work with a fault, beside the file work without: a fault that strikes is recorded
      and leaves the old file, under its old or its new name, or the new one not yet safe on
      disk; any other changes nothing. */
  ghost predicate FaultShows(cpa: Directory, key: string, g: Grant, faulty: FileWork, faultless: FileWork, fault: Fault) {
    if Strikes(cpa, key, g, fault) then
      && faulty.error == Some(if fault.DestinationTaken? then ConsumerConflict else Storage)
      && LeftByFault(cpa, ApplyFiles(cpa, faulty.steps), key, g, fault)
    else faulty == faultless
  }

  /** What is known of the directory once its scan has succeeded. */
  ghost predicate Scanned(cpa: Directory, key: string, g: Grant, found: Found) {
    && (forall n :: IsOwnFile(n, cpa, key) ==> found == Some((n, cpa[n].value)))
    && (found.Some? ==> IsOwnFile(found.value.0, cpa, key) && cpa[found.value.0] == Doc(found.value.1))
    && (CanonicalName(g, key) in cpa ==> IsOwnFile(CanonicalName(g, key), cpa, key))
  }

  /** The account's file is to be written in place, or for the first time. */
  lemma FaultInPlace(cpa: Directory, key: string, g: Grant, found: Found, now: nat, fault: Fault)
    requires Scanned(cpa, key, g, found) && (found.Some? ==> found.value.0 == CanonicalName(g, key))
    requires now < g.expiresAt && (g.cpaSyncedGeneration.Some? ==> found.Some?)
    requires var work := FileWorkFor(cpa, key, g, found, now, NoFault); Published(cpa, ApplyFiles(cpa, work.steps), key, g)
    ensures FaultShows(cpa, key, g, FileWorkFor(cpa, key, g, found, now, fault),
                       FileWorkFor(cpa, key, g, found, now, NoFault), fault)
  {
    assert !MustMove(cpa, key, g);
    assert MustWrite(cpa, key, g) <==> found.None? || found.value.1 != ProjectionOver(g, Some(found.value.1));
  }

  /** The account's file is to be renamed first. */
  lemma FaultMoved(cpa: Directory, key: string, g: Grant, name: string, existing: Json, now: nat, fault: Fault)
    requires Scanned(cpa, key, g, Some((name, existing))) && name != CanonicalName(g, key)
    requires now < g.expiresAt
    requires var work := FileWorkFor(cpa, key, g, Some((name, existing)), now, NoFault);
             Published(cpa, ApplyFiles(cpa, work.steps), key, g)
    ensures var found := Some((name, existing));
            FaultShows(cpa, key, g, FileWorkFor(cpa, key, g, found, now, fault),
                       FileWorkFor(cpa, key, g, found, now, NoFault), fault)
  {
    assert MustMove(cpa, key, g);
    assert MustWrite(cpa, key, g) <==> existing != ProjectionOver(g, Some(existing));
    assert CanonicalName(g, key) !in cpa;
    var move := CpaRename(name, CanonicalName(g, key));
    ApplyOne(cpa, move);
    RenameOnlyMoves(cpa, key, g, name);
  }

  lemma RenameOnlyMoves(cpa: Directory, key: string, g: Grant, name: string)
    requires name in cpa && CanonicalName(g, key) !in cpa && forall n :: IsOwnFile(n, cpa, key) ==> n == name
    ensures OnlyMoved(cpa, ApplyToDirectory(cpa, CpaRename(name, CanonicalName(g, key))), key, g)
  {
  }

  /** The file work of an unobstructed sync, whatever goes wrong with a rename or a write. */
  lemma FaultyWork(cpa: Directory, key: string, g: Grant, listing: seq<string>, now: nat, fault: Fault)
    requires Lists(listing, cpa) && g.key == key && Unobstructed(cpa, key, g, now)
    ensures var faultless := ProjectWork(cpa, key, g, Listed(listing), now, NoFault);
            && faultless.error.None?
            && FaultShows(cpa, key, g, ProjectWork(cpa, key, g, Listed(listing), now, fault), faultless, fault)
  {
    MustFailExactlyWhen(cpa, key, g, now);
    FileWorkPublishes(cpa, key, g, listing, now);
    ScanSucceedsExactlyWhen(listing, cpa, key, g);
    ScanMeaning(listing, cpa, key, g);
    ScanLeavesNameFree(listing, cpa, key, g);
    var found := Scan(listing, cpa, key, g).value;
    if found.None? || found.value.0 == CanonicalName(g, key) {
      FaultInPlace(cpa, key, g, found, now, fault);
    } else {
      FaultMoved(cpa, key, g, found.value.0, found.value.1, now, fault);
    }
  }

  /** A completed sync with a file step that fails: the failure is on record, the generation does
      not count as synced anew, and the account's old or new document is still there. */
  lemma FaultySyncRecordsIt(w: World, key: string, listing: seq<string>, now: nat, fault: Fault, n: nat)
    requires w.slot.canonical.Some? && w.slot.canonical.value.key == key && WantsPublishing(w.slot.canonical.value)
    requires Lists(listing, w.cpa) && 3 <= n && Unobstructed(w.cpa, key, w.slot.canonical.value, now)
    ensures var g := w.slot.canonical.value;
            var w' := Step(w, key, Perform(Sync(Listed(listing), now, fault), n));
            if Strikes(w.cpa, key, g, fault) then
              && w'.slot.canonical ==
                   Some(g.(cpaSyncError := Some(if fault.DestinationTaken? then ConsumerConflict else Storage)))
              && LeftByFault(w.cpa, w'.cpa, key, g, fault)
            else
              w' == Step(w, key, Perform(Sync(Listed(listing), now, NoFault), n))
  {
    var g := w.slot.canonical.value;
    var plan := PlanOf(w, key, Sync(Listed(listing), now, fault));
    var work := ProjectWork(w.cpa, key, g, Listed(listing), now, fault);
    SyncStepsAreFew(w.slot, w.cpa, key, Listed(listing), now, fault);
    CompleteIsEveryStep(w, plan, n);
    FaultyWork(w.cpa, key, g, listing, now, fault);
    FileStepsOnly(w.cpa, key, g, Listed(listing), now, fault);
    CompletePrepended(w, work.steps, g, work.error);
  }

  lemma {:induction false} AnswerPrepended(steps: seq<Effect>, plan: Plan, n: nat)
    requires |steps| <= n
    ensures Answer(Prepend(steps, plan), n) == Answer(plan, n - |steps|)
    decreases |steps|
  {
    if steps != [] {
      AnswerPrepended(steps[1..], plan, n - 1);
    }
  }

  /** A completed sync that reads the directory answers with the grant as it now is on disk, or
      with a suspension that it did not save. */
  lemma SyncAnswersWithTheRecord(w: World, key: string, listing: seq<string>, now: nat, fault: Fault, n: nat)
    requires w.slot.canonical.Some? && WantsPublishing(w.slot.canonical.value) && 3 <= n
    ensures var w' := Step(w, key, Perform(Sync(Listed(listing), now, fault), n));
            var answer := Answer(PlanOf(w, key, Sync(Listed(listing), now, fault)), n);
            && w'.slot.canonical.Some? && answer.Ok?
            && (answer.value == w'.slot.canonical.value || (answer.value.cpaSyncSuspended && w'.slot == w.slot))
  {
    var g := w.slot.canonical.value;
    var plan := PlanOf(w, key, Sync(Listed(listing), now, fault));
    var work := ProjectWork(w.cpa, key, g, Listed(listing), now, fault);
    SyncStepsAreFew(w.slot, w.cpa, key, Listed(listing), now, fault);
    CompleteIsEveryStep(w, plan, n);
    FileStepsOnly(w.cpa, key, g, Listed(listing), now, fault);
    CompletePrepended(w, work.steps, g, work.error);
    assert |work.steps| <= 2;
    AnswerPrepended(work.steps, FinishSync(g, work.error), n);
  }

  // ----- Settings -----

  /** Switching the consumer on or off: refused for an account that is not there, blocked or has
      nowhere to publish, and otherwise saved; switching on forgets what was synced before. */
  lemma EnabledMeaning(w: World, key: string, enabled: bool, hasDirectory: bool, n: nat)
    requires 1 <= n
    ensures var w' := Step(w, key, Perform(SetCpa(enabled, hasDirectory), n));
            var answer := Answer(PlanOf(w, key, SetCpa(enabled, hasDirectory)), n);
            if w.slot.canonical.None? then w' == w && answer == Err(AccountMissing)
            else
              var c := w.slot.canonical.value;
              var blocked := c.inFlight || c.error == Some(ReauthRequired) || c.error == Some(RecoveryRequired);
              if enabled && blocked then w' == w && answer == Err(if c.error.Some? then c.error.value else RecoveryRequired)
              else if enabled && !hasDirectory then w' == w && answer == Err(Config)
              else
                && w'.cpa == w.cpa && w'.slot.journal == w.slot.journal && w'.slot.canonical.Some?
                && answer == Ok(w'.slot.canonical.value)
                && w'.slot.canonical.value ==
                     if enabled
                     then c.(cpaEnabled := true, cpaSyncSuspended := false,
                             cpaSyncedGeneration := None, cpaSyncError := None)
                     else c.(cpaEnabled := false, cpaSyncSuspended := false)
  {
    var plan := PlanOf(w, key, SetCpa(enabled, hasDirectory));
    if plan.Then? {
      OneStep(w, plan.effect, plan.rest, n);
    }
  }

  /** Only the current generation is acknowledged, and then nothing else changes. */
  lemma AcknowledgedMeaning(w: World, key: string, generation: nat, n: nat)
    requires 1 <= n && w.slot.canonical.Some?
    ensures var c := w.slot.canonical.value; var w' := Step(w, key, Perform(Acknowledge(generation), n));
            var answer := Answer(PlanOf(w, key, Acknowledge(generation)), n);
            if generation == c.generation then
              && w'.cpa == w.cpa && w'.slot == w.slot.(canonical := Some(c.(cockpitSyncedGeneration := Some(c.generation))))
              && answer == Ok(w'.slot.canonical.value)
            else w' == w && answer == Err(ConsumerConflict)
  {
    var plan := PlanOf(w, key, Acknowledge(generation));
    if plan.Then? {
      OneStep(w, plan.effect, plan.rest, n);
    }
  }
}
