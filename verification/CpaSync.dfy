/** What a completed consumer sync does to the whole directory. */
module CpaSync {
  import opened Basics
  import opened Grants
  import opened CpaDirectory
  import opened BrokerPlans
  import opened BrokerSafety

  /** The state after all of a plan. */
  function Complete(w: World, plan: Plan): World
    decreases plan
  {
    if plan.Return? then w else Complete(Apply(w, plan.effect), plan.rest)
  }

  lemma {:induction false} CompleteIsEveryStep(w: World, plan: Plan, n: nat)
    requires Steps(plan) <= n
    ensures RunPlan(w, plan, n) == Complete(w, plan)
    ensures Answer(plan, n) == Answer(plan, Steps(plan))
    decreases plan
  {
    if plan.Then? {
      CompleteIsEveryStep(Apply(w, plan.effect), plan.rest, n - 1);
    }
  }

  function ApplyFiles(cpa: Directory, steps: seq<Effect>): Directory
    decreases |steps|
  {
    if steps == [] then cpa else ApplyFiles(ApplyToDirectory(cpa, steps[0]), steps[1..])
  }

  lemma {:induction false} CompletePrepended(w: World, steps: seq<Effect>, g: Grant, error: Option<Error>)
    requires forall e | e in steps :: e.CpaRename? || e.CpaWrite?
    requires w.slot.canonical == Some(g)
    ensures var w' := Complete(w, Prepend(steps, FinishSync(g, error)));
            && w'.cpa == ApplyFiles(w.cpa, steps)
            && w'.slot.journal == w.slot.journal
            && w'.slot.canonical == Some(if FinishSync(g, error).Then? then RecordSync(g, error) else g)
    decreases |steps|
  {
    if steps == [] {
      var plan := FinishSync(g, error);
      if plan.Then? {
        assert Complete(w, plan) == Complete(Apply(w, plan.effect), plan.rest) == Apply(w, plan.effect);
      }
    } else {
      assert steps[0] in steps && forall e | e in steps[1..] :: e in steps;
      CompletePrepended(Apply(w, steps[0]), steps[1..], g, error);
    }
  }

  /** The account's document before the sync, if a file carries its marker. */
  ghost function OwnDocument(cpa: Directory, key: string): Option<Json> {
    if exists n :: IsOwnFile(n, cpa, key) then
      var n :| IsOwnFile(n, cpa, key);
      Some(cpa[n].value)
    else None
  }

  /** The directory or the clock rules a sync out. */
  ghost predicate Obstructed(cpa: Directory, key: string, g: Grant, now: nat) {
    || (exists n | n in cpa :: Refuses(n, cpa, key, g))
    || !AtMostOneOwnFile(cpa, key)
    || g.expiresAt <= now
  }

  /** What stops a fault-free sync: an obstruction, or a synced file that is gone. */
  ghost predicate MustFail(cpa: Directory, key: string, g: Grant, now: nat) {
    Obstructed(cpa, key, g, now) || (OwnDocument(cpa, key).None? && g.cpaSyncedGeneration.Some?)
  }

  /** `after` has exactly the account's current document, under the email-derived name, with
      the operator's switch kept; every file that was not the account's is as before. */
  ghost predicate Published(before: Directory, after: Directory, key: string, g: Grant) {
    PublishedOver(before, after, key, g, OwnDocument(before, key))
  }

  ghost predicate PublishedOver(before: Directory, after: Directory, key: string, g: Grant, own: Option<Json>) {
    var destination := CanonicalName(g, key);
    && (forall n :: IsOwnFile(n, after, key) <==> n == destination)
    && destination in after && after[destination] == Doc(ProjectionOver(g, own))
    && (forall n | n != destination && !IsOwnFile(n, before, key) ::
          (n in after <==> n in before) && (n in before ==> after[n] == before[n]))
  }

  /** A scan that found the account's file under another name leaves the email-derived
      name free, so the later existence check never fires. */
  lemma DestinationIsFree(listing: seq<string>, cpa: Directory, key: string, g: Grant)
    requires Lists(listing, cpa) && Scan(listing, cpa, key, g).Ok?
    requires var found := Scan(listing, cpa, key, g).value;
             found.None? || found.value.0 != CanonicalName(g, key)
    ensures CanonicalName(g, key) !in cpa
  {
    ScanMeaning(listing, cpa, key, g);
    CanonicalNameIsScanned(g, key);
    var destination := CanonicalName(g, key);
    if destination in cpa {
      assert !Refuses(destination, cpa, key, g);
      assert IsOwnFile(destination, cpa, key);
    }
  }

  lemma OwnDocumentIsFound(cpa: Directory, key: string, found: Found)
    requires forall n :: IsOwnFile(n, cpa, key) ==> found == Some((n, cpa[n].value))
    requires found.Some? ==> IsOwnFile(found.value.0, cpa, key) && cpa[found.value.0] == Doc(found.value.1)
    ensures OwnDocument(cpa, key) == if found.Some? then Some(found.value.1) else None
  {
  }

  /** A fault-free sync fails exactly for a reason found before touching any file, and then
      touches none; otherwise it publishes. */
  lemma FileWorkPublishes(cpa: Directory, key: string, g: Grant, listing: seq<string>, now: nat)
    requires Lists(listing, cpa) && g.key == key
    ensures var work := ProjectWork(cpa, key, g, Listed(listing), now, NoFault);
            && (work.error.Some? <==> MustFail(cpa, key, g, now))
            && (work.error.Some? ==> work.steps == [])
            && (work.error.None? ==> Published(cpa, ApplyFiles(cpa, work.steps), key, g))
  {
    ScanMeaning(listing, cpa, key, g);
    CanonicalNameIsScanned(g, key);
    var work := ProjectWork(cpa, key, g, Listed(listing), now, NoFault);
    var destination := CanonicalName(g, key);
    if Scan(listing, cpa, key, g).Ok? {
      var found := Scan(listing, cpa, key, g).value;
      OwnDocumentIsFound(cpa, key, found);
      if found.None? || found.value.0 != destination {
        DestinationIsFree(listing, cpa, key, g);
      }
      assert destination in cpa ==> !Refuses(destination, cpa, key, g);
      if work.error.None? {
        FoundFileIsPublished(cpa, key, g, found, now);
      }
    }
  }

  lemma WriteLeavesOneOwnFile(cpa: Directory, after: Directory, key: string, destination: string, value: Json)
    requires IsManaged(value, key) && HasJsonExtension(destination)
    requires forall n | n in cpa && IsOwnFile(n, cpa, key) :: n == destination
    requires after == cpa[destination := Doc(value)]
    ensures forall n :: IsOwnFile(n, after, key) <==> n == destination
  {
  }

  lemma ApplyOne(cpa: Directory, e: Effect)
    ensures ApplyFiles(cpa, [e]) == ApplyToDirectory(cpa, e)
  {
  }

  lemma FoundFileIsPublished(cpa: Directory, key: string, g: Grant, found: Found, now: nat)
    requires g.key == key
    requires forall n :: IsOwnFile(n, cpa, key) ==> found == Some((n, cpa[n].value))
    requires found.Some? ==> IsOwnFile(found.value.0, cpa, key) && cpa[found.value.0] == Doc(found.value.1)
    requires found.None? || found.value.0 != CanonicalName(g, key) ==> CanonicalName(g, key) !in cpa
    requires FileWorkFor(cpa, key, g, found, now, NoFault).error.None?
    ensures PublishedOver(cpa, ApplyFiles(cpa, FileWorkFor(cpa, key, g, found, now, NoFault).steps), key, g,
                          if found.Some? then Some(found.value.1) else None)
  {
    var destination := CanonicalName(g, key);
    CanonicalNameIsScanned(g, key);
    if found.Some? && found.value.0 != destination {
      MovedFileIsPublished(cpa, key, g, found.value.0, found.value.1, now);
    } else {
      var existing := if found.Some? then Some(found.value.1) else None;
      var value := ProjectionOver(g, existing);
      ProjectionIsCurrent(g, existing);
      var steps := FileWorkFor(cpa, key, g, found, now, NoFault).steps;
      if steps != [] {
        assert steps == [CpaWrite(destination, value)];
        ApplyOne(cpa, CpaWrite(destination, value));
        WriteLeavesOneOwnFile(cpa, ApplyFiles(cpa, steps), key, destination, value);
      }
    }
  }

  lemma MovedFileIsPublished(cpa: Directory, key: string, g: Grant, name: string, existing: Json, now: nat)
    requires g.key == key && name != CanonicalName(g, key) && CanonicalName(g, key) !in cpa
    requires IsOwnFile(name, cpa, key) && cpa[name] == Doc(existing)
    requires forall n | n in cpa && IsOwnFile(n, cpa, key) :: n == name
    requires now < g.expiresAt
    ensures var steps := FileWorkFor(cpa, key, g, Some((name, existing)), now, NoFault).steps;
            var after := ApplyFiles(cpa, steps);
            PublishedOver(cpa, after, key, g, Some(existing)) && name !in after
  {
    var destination := CanonicalName(g, key);
    var value := ProjectionOver(g, Some(existing));
    ProjectionIsCurrent(g, Some(existing));
    CanonicalNameIsScanned(g, key);
    var move, write := CpaRename(name, destination), CpaWrite(destination, value);
    var moved := ApplyToDirectory(cpa, move);
    RenameMovesTheOwnFile(cpa, key, name, destination);
    if existing == value {
      ApplyOne(cpa, move);
    } else {
      assert [move, write][1..] == [write];
      assert ApplyFiles(cpa, [move, write]) == ApplyFiles(moved, [write]);
      ApplyOne(moved, write);
      WriteLeavesOneOwnFile(moved, ApplyFiles(moved, [write]), key, destination, value);
    }
  }

  /** An enabled sync on any directory: either the account's file is published and recorded
      as synced, or no file changes, nothing counts as synced and an error is on record; which
      of the two is decided by the directory and the clock alone. */
  lemma SyncPublishesOrTouchesNothing(w: World, key: string, listing: seq<string>, now: nat)
    requires w.slot.canonical.Some? && Projects(w.slot.canonical.value) && w.slot.canonical.value.key == key
    requires Lists(listing, w.cpa)
    ensures var g := w.slot.canonical.value;
            var w' := Complete(w, SyncPlan(w.slot, w.cpa, key, Listed(listing), now, NoFault));
            if MustFail(w.cpa, key, g, now) then
              && w'.cpa == w.cpa && w'.slot.canonical.Some?
              && SameCredential(w'.slot.canonical.value, g)
              && w'.slot.canonical.value.cpaSyncedGeneration == g.cpaSyncedGeneration
              && w'.slot.canonical.value.cpaSyncError.Some?
            else
              && w'.cpa == ApplyFiles(w.cpa, ProjectWork(w.cpa, key, g, Listed(listing), now, NoFault).steps)
              && Published(w.cpa, w'.cpa, key, g)
              && w'.slot.canonical == Some(g.(cpaSyncedGeneration := Some(g.generation), cpaSyncError := None))
  {
    var g := w.slot.canonical.value;
    var work := ProjectWork(w.cpa, key, g, Listed(listing), now, NoFault);
    FileWorkPublishes(w.cpa, key, g, listing, now);
    FileStepsOnly(w.cpa, key, g, Listed(listing), now, NoFault);
    CompletePrepended(w, work.steps, g, work.error);
  }

  /** Enabling the consumer and syncing, as one administrator request does: a file deleted
      after an earlier sync is no obstacle any more, and unless the directory is refused or
      the credential has expired the account's file is published again. */
  lemma EnablingPublishesAgain(w: World, key: string, listing: seq<string>, now: nat)
    requires w.slot.canonical.Some? && !w.slot.canonical.value.Blocked() && w.slot.canonical.value.key == key
    requires Lists(listing, w.cpa)
    ensures var g := w.slot.canonical.value;
            var w1 := Complete(w, SetCpaPlan(w.slot, true, true));
            var w2 := Complete(w1, SyncPlan(w1.slot, w1.cpa, key, Listed(listing), now, NoFault));
            if Obstructed(w.cpa, key, g, now) then w2.cpa == w.cpa
            else
              && Published(w.cpa, w2.cpa, key, g)
              && w2.slot.canonical.Some? && SameCredential(w2.slot.canonical.value, g)
              && w2.slot.canonical.value.cpaSyncedGeneration == Some(g.generation)
  {
    var g := w.slot.canonical.value;
    var enabled := g.(cpaEnabled := true, cpaSyncSuspended := false, cpaSyncedGeneration := None, cpaSyncError := None);
    var plan := SetCpaPlan(w.slot, true, true);
    assert plan == Then(Amend(enabled), Return(Ok(enabled)));
    var w1 := Apply(w, Amend(enabled));
    assert Complete(w, plan) == Complete(w1, plan.rest) == w1;
    SyncPublishesOrTouchesNothing(w1, key, listing, now);
    ObstructedAlike(w.cpa, key, g, enabled, now);
  }

  /** Bookkeeping plays no part in what a file means to the account, or in what is published. */
  lemma ObstructedAlike(cpa: Directory, key: string, a: Grant, b: Grant, now: nat)
    requires SameCredential(a, b)
    ensures Obstructed(cpa, key, a, now) == Obstructed(cpa, key, b, now)
    ensures forall after :: Published(cpa, after, key, a) == Published(cpa, after, key, b)
  {
  }

  /** A repeated sync before expiry takes no step at all: the consumer's watcher sees nothing. */
  lemma SecondSyncIsSilent(w: World, key: string, first: seq<string>, second: seq<string>, now: nat, later: nat)
    requires w.slot.canonical.Some? && Projects(w.slot.canonical.value) && w.slot.canonical.value.key == key
    requires Lists(first, w.cpa) && !MustFail(w.cpa, key, w.slot.canonical.value, now)
    requires later < w.slot.canonical.value.expiresAt
    ensures var w' := Complete(w, SyncPlan(w.slot, w.cpa, key, Listed(first), now, NoFault));
            Lists(second, w'.cpa) ==>
              SyncPlan(w'.slot, w'.cpa, key, Listed(second), later, NoFault).Return?
  {
    var g := w.slot.canonical.value;
    SyncPublishesOrTouchesNothing(w, key, first, now);
    OldNameIsGone(w.cpa, key, g, first, now);
    var w' := Complete(w, SyncPlan(w.slot, w.cpa, key, Listed(first), now, NoFault));
    if Lists(second, w'.cpa) {
      SyncedIsSilent(w.cpa, key, g, w', second, later);
    }
  }

  lemma SyncedIsSilent(before: Directory, key: string, g: Grant, w: World, listing: seq<string>, now: nat)
    requires Projects(g) && g.key == key && now < g.expiresAt
    requires w.slot.canonical == Some(g.(cpaSyncedGeneration := Some(g.generation), cpaSyncError := None))
    requires Published(before, w.cpa, key, g) && Lists(listing, w.cpa)
    requires forall n | n in before :: !Refuses(n, before, key, g)
    requires forall n | IsOwnFile(n, before, key) && n != CanonicalName(g, key) :: n !in w.cpa
    ensures SyncPlan(w.slot, w.cpa, key, Listed(listing), now, NoFault).Return?
  {
    var own := OwnDocument(before, key);
    PublishedDirectoryIsSettled(before, w.cpa, key, g, own, listing);
    JudgedAlike(w.cpa, key, g, w.slot.canonical.value, listing);
    SettledSyncIsSilent(w, key, listing, now, ProjectionOver(g, own));
  }

  lemma SettledSyncIsSilent(w: World, key: string, listing: seq<string>, now: nat, value: Json)
    requires w.slot.canonical.Some? && Projects(w.slot.canonical.value) && now < w.slot.canonical.value.expiresAt
    requires var g := w.slot.canonical.value;
             && g.cpaSyncedGeneration == Some(g.generation) && g.cpaSyncError.None?
             && Scan(listing, w.cpa, key, g) == Ok(Some((CanonicalName(g, key), value)))
             && ProjectionOver(g, Some(value)) == value
    ensures SyncPlan(w.slot, w.cpa, key, Listed(listing), now, NoFault).Return?
  {
  }

  /** Bookkeeping plays no part in the scan. */
  lemma {:induction false} ScannedAlike(listing: seq<string>, found: Found, cpa: Directory, key: string, a: Grant, b: Grant)
    requires a.email == b.email && a.accountId == b.accountId
    ensures ScanFrom(listing, found, cpa, key, a) == ScanFrom(listing, found, cpa, key, b)
    decreases |listing|
  {
    if listing != [] {
      assert Judge(listing[0], cpa, key, a) == Judge(listing[0], cpa, key, b);
      ScannedAlike(listing[1..], found, cpa, key, a, b);
      if Judge(listing[0], cpa, key, a).Own? {
        ScannedAlike(listing[1..], Some((listing[0], Judge(listing[0], cpa, key, a).value)), cpa, key, a, b);
      }
    }
  }

  lemma JudgedAlike(cpa: Directory, key: string, a: Grant, b: Grant, listing: seq<string>)
    requires a.email == b.email && a.accountId == b.accountId
    ensures Scan(listing, cpa, key, a) == Scan(listing, cpa, key, b)
  {
    ScannedAlike(listing, None, cpa, key, a, b);
  }

  /** The account's old file does not stay behind under its old name. */
  lemma OldNameIsGone(before: Directory, key: string, g: Grant, listing: seq<string>, now: nat)
    requires Lists(listing, before) && g.key == key && !MustFail(before, key, g, now)
    ensures var after := ApplyFiles(before, ProjectWork(before, key, g, Listed(listing), now, NoFault).steps);
            forall n | IsOwnFile(n, before, key) && n != CanonicalName(g, key) :: n !in after
  {
    ScanMeaning(listing, before, key, g);
    FileWorkPublishes(before, key, g, listing, now);
    forall n | IsOwnFile(n, before, key) && n != CanonicalName(g, key)
      ensures n !in ApplyFiles(before, ProjectWork(before, key, g, Listed(listing), now, NoFault).steps)
    {
      DestinationIsFree(listing, before, key, g);
      MovedFileIsPublished(before, key, g, n, before[n].value, now);
    }
  }

  /** The scan of a published directory finds the published file and nothing to do. */
  lemma PublishedDirectoryIsSettled(before: Directory, after: Directory, key: string, g: Grant, own: Option<Json>,
                                    listing: seq<string>)
    requires PublishedOver(before, after, key, g, own) && g.key == key && Lists(listing, after)
    requires forall n | n in before :: !Refuses(n, before, key, g)
    requires forall n | IsOwnFile(n, before, key) && n != CanonicalName(g, key) :: n !in after
    ensures Scan(listing, after, key, g) == Ok(Some((CanonicalName(g, key), ProjectionOver(g, own))))
    ensures ProjectionOver(g, Some(ProjectionOver(g, own))) == ProjectionOver(g, own)
  {
    var destination := CanonicalName(g, key);
    ProjectionIsCurrent(g, own);
    ScanMeaning(listing, after, key, g);
    forall n | n in after
      ensures !Refuses(n, after, key, g)
    {
      if n != destination {
        assert !IsOwnFile(n, before, key);
        assert Judge(n, after, key, g) == Judge(n, before, key, g);
      }
    }
    assert IsOwnFile(destination, after, key);
  }

  /** When the consumer deleted a synced file, the sync reports itself suspended and writes
      no file. The suspension reaches the grant file exactly when the last recorded sync
      error was not already a conflict: otherwise nothing is saved, and putting the file
      back resumes syncing. */
  lemma SuspensionIsSavedUnlessConflictWasRecorded(w: World, key: string, listing: seq<string>, now: nat)
    requires w.slot.canonical.Some? && Projects(w.slot.canonical.value) && w.slot.canonical.value.key == key
    requires Lists(listing, w.cpa) && w.slot.canonical.value.cpaSyncedGeneration.Some?
    requires forall n | n in w.cpa :: !Refuses(n, w.cpa, key, w.slot.canonical.value) && !IsOwnFile(n, w.cpa, key)
    ensures var g := w.slot.canonical.value;
            var plan := SyncPlan(w.slot, w.cpa, key, Listed(listing), now, NoFault);
            var w' := Complete(w, plan);
            && w'.cpa == w.cpa && w'.slot.canonical.Some?
            && Answer(plan, Steps(plan)).Ok?
            && Answer(plan, Steps(plan)).value == g.(cpaEnabled := false, cpaSyncSuspended := true,
                                                     cpaSyncError := Some(ConsumerConflict))
            && (w'.slot.canonical.value.cpaSyncSuspended <==> g.cpaSyncError != Some(ConsumerConflict))
  {
    var g := w.slot.canonical.value;
    ScanMeaning(listing, w.cpa, key, g);
    assert AtMostOneOwnFile(w.cpa, key);
    var plan := SyncPlan(w.slot, w.cpa, key, Listed(listing), now, NoFault);
    assert plan == FinishSync(g, Some(ConsumerMissing));
    CompletePrepended(w, [], g, Some(ConsumerMissing));
    assert Prepend([], FinishSync(g, Some(ConsumerMissing))) == FinishSync(g, Some(ConsumerMissing));
  }

  /** Why a sync failed, when the scan met no file that stops it by itself. */
  lemma SyncErrorTellsWhy(w: World, key: string, listing: seq<string>, now: nat)
    requires w.slot.canonical.Some? && Projects(w.slot.canonical.value) && w.slot.canonical.value.key == key
    requires Lists(listing, w.cpa)
    requires forall n | n in w.cpa :: !Refuses(n, w.cpa, key, w.slot.canonical.value)
    requires MustFail(w.cpa, key, w.slot.canonical.value, now)
    ensures var g := w.slot.canonical.value;
            ProjectWork(w.cpa, key, g, Listed(listing), now, NoFault).error ==
              Some(if !AtMostOneOwnFile(w.cpa, key) then ConsumerConflict
                   else if OwnDocument(w.cpa, key).None? && g.cpaSyncedGeneration.Some? then ConsumerMissing
                   else ReauthRequired)
  {
    var g := w.slot.canonical.value;
    ScanMeaning(listing, w.cpa, key, g);
    if AtMostOneOwnFile(w.cpa, key) {
      OwnDocumentIsFound(w.cpa, key, Scan(listing, w.cpa, key, g).value);
    } else {
      TwoOwnFilesConflict(listing, None, w.cpa, key, g);
    }
  }

  /** The only way a scan without a refusing file fails is a second file of the account. */
  lemma {:induction false} TwoOwnFilesConflict(listing: seq<string>, found: Found, cpa: Directory, key: string, g: Grant)
    requires forall n | n in listing :: !Judge(n, cpa, key, g).Stop?
    ensures ScanFrom(listing, found, cpa, key, g).Err? ==>
              ScanFrom(listing, found, cpa, key, g) == Err(ConsumerConflict)
    decreases |listing|
  {
    if listing != [] {
      var head := listing[0];
      assert head in listing && forall n | n in listing[1..] :: n in listing;
      TwoOwnFilesConflict(listing[1..], found, cpa, key, g);
      if Judge(head, cpa, key, g).Own? {
        TwoOwnFilesConflict(listing[1..], Some((head, Judge(head, cpa, key, g).value)), cpa, key, g);
      }
    }
  }

  /** Every other file of a published directory was there before, and the scan passed over it. */
  lemma OthersAreOfOtherIdentities(before: Directory, after: Directory, key: string, g: Grant, n: string)
    requires Published(before, after, key, g) && n != CanonicalName(g, key)
    requires forall m | IsOwnFile(m, before, key) && m != CanonicalName(g, key) :: m !in after
    requires forall m | m in before :: !Refuses(m, before, key, g)
    requires n in after && HasJsonExtension(n) && after[n].Doc?
    ensures !IdentityMatches(after[n].value, g)
  {
    assert !IsOwnFile(n, before, key) && !Refuses(n, before, key, g);
  }

  /** The published file carries the account's access credential without its refresh token, and
      is the only readable credential of this identity in the directory: the sync never adds a
      second one beside a credential of unknown ownership. */
  lemma PublishedFileStandsAlone(w: World, key: string, listing: seq<string>, now: nat)
    requires w.slot.canonical.Some? && Projects(w.slot.canonical.value) && w.slot.canonical.value.key == key
    requires Lists(listing, w.cpa) && !MustFail(w.cpa, key, w.slot.canonical.value, now)
    ensures var g := w.slot.canonical.value;
            var w' := Complete(w, SyncPlan(w.slot, w.cpa, key, Listed(listing), now, NoFault));
            var name := CanonicalName(g, key);
            && name in w'.cpa && w'.cpa[name].Doc? && Carries(w'.cpa[name].value, g)
            && forall n | n in w'.cpa && HasJsonExtension(n) && w'.cpa[n].Doc? && IdentityMatches(w'.cpa[n].value, g) ::
                 n == name
  {
    var g := w.slot.canonical.value;
    ProjectionCarriesTheCredential(g, OwnDocument(w.cpa, key));
    SyncPublishesOrTouchesNothing(w, key, listing, now);
    OldNameIsGone(w.cpa, key, g, listing, now);
    var w' := Complete(w, SyncPlan(w.slot, w.cpa, key, Listed(listing), now, NoFault));
    forall n | n in w'.cpa && HasJsonExtension(n) && w'.cpa[n].Doc? && n != CanonicalName(g, key)
      ensures !IdentityMatches(w'.cpa[n].value, g)
    {
      OthersAreOfOtherIdentities(w.cpa, w'.cpa, key, g, n);
    }
  }

  /** The consumer learns nothing of the refresh token: with any other one in its place, a
      sync would do the same file work to the same directory. */
  lemma RefreshTokenNeverReachesTheConsumer(cpa: Directory, key: string, g: Grant, dir: DirectoryState, now: nat,
                                            fault: Fault, token: string, handoff: Digest)
    requires dir.UnreadableDirectory? || dir.Listed?
    ensures var other := g.(refreshToken := token, handoffId := handoff);
            ProjectWork(cpa, key, g, dir, now, fault) == ProjectWork(cpa, key, other, dir, now, fault)
  {
    var other := g.(refreshToken := token, handoffId := handoff);
    assert Projection(g) == Projection(other);
    if dir.Listed? {
      JudgedAlike(cpa, key, g, other, dir.names);
    }
  }

  /** Next to a suspicious file, or one that has the account's name, a sync changes no file and
      records an error. */
  lemma SuspiciousFileStopsTheSync(w: World, key: string, listing: seq<string>, now: nat, name: string)
    requires w.slot.canonical.Some? && Projects(w.slot.canonical.value) && w.slot.canonical.value.key == key
    requires Lists(listing, w.cpa)
    requires var g := w.slot.canonical.value; Suspicious(name, w.cpa, key, g) || Squats(name, w.cpa, key, g)
    ensures var w' := Complete(w, SyncPlan(w.slot, w.cpa, key, Listed(listing), now, NoFault));
            && w'.cpa == w.cpa && w'.slot.canonical.Some?
            && w'.slot.canonical.value.cpaSyncedGeneration == w.slot.canonical.value.cpaSyncedGeneration
            && w'.slot.canonical.value.cpaSyncError.Some?
  {
    RefusesExactlyWhen(name, w.cpa, key, w.slot.canonical.value);
    SyncPublishesOrTouchesNothing(w, key, listing, now);
  }
}
