# Verification of NoTrace Browser's stateful cores

A Dafny model of the parts of NoTrace Browser whose correctness depends on what
happens over many steps, crashes included, and proofs of what those parts are
for. `dafny verify dfyconfig.toml` checks everything.

## What is modelled

**The Broker** (`crates/cloak-core/src/broker.rs`, driven by
`crates/cloak-broker/src/main.rs`) is the only holder of a rotating OAuth refresh
token (section 6 of RFC 6749, section 4.14.2 of RFC 9700). Each call is written
twice. `BrokerPlans` gives it as a plan: the list of durable steps (saves of the
grant file, the token request, the journal write, the promotion, renames and
writes in the consumer directory) that the call takes in order. `BrokerStores`
gives it as a class method with the source's branches and early returns, updating
the files in place, and proves that wherever the process dies the files are
exactly where the plan, cut off there, leaves them. The properties are proved
about the plans, over every run of calls, each cut off after any number of steps:
`BrokerRuns` shows that every step of every call is one of a small set of legal
steps, and `BrokerSafety` that legal steps keep the invariants.
`BrokerInterleaving` then takes the calls apart: the consumer and other accounts may
change the directory in any way between a sync's scan and each of its steps, and file
steps may fail there. Every such interleaved run is shown to be a run of whole calls.
`BrokerConcurrency` does the same for all accounts at once, as the scheduler and the
workers run them under per-account locks, and `BrokerRaces` says what is lost in such
a run and exactly when. `BrokerTheorems`, `CpaSync`, `ConsumerPause`, `ConsumerRuns`,
`RenewalCounts`, `Acknowledgements`, `Backoff` and `BrokerFleet` (the scheduler's
pass) draw the consequences. What one completed call comes to is stated without the
plans: `BrokerImports` tells it from the imported body, `BrokerReplies` from the
provider's reply, `SyncOutcomes` from the directory and the clock, and `BrokerPass`
for a whole pass of the scheduler.

**The desktop side** (`crates/cloak-core/src/auth.rs`) has the same shape:
`LocalAuth` (lists of durable moves), `LocalHomes` (the class), `HandoverSafety`,
`LocalPolicy` and `LocalRotation` (the properties), and `LocalOutcomes` (what a completed
operation comes to). `Custody` joins the desktop and the Broker in one run. `LoginLoop` is the message loop of a login, with the browser watched by
`LoginBrowser`.

**Smaller cores.** `LaunchRegistry`: cancellation tokens of browser launches.
`RenderPrivacy`: the native render arithmetic on 32- and 64-bit words.
`AclCodec`, `AclFiles`: repairing and restoring POSIX ACLs. `CanvasNoise`: the
companion's canvas noise, its removal and its cache. `BulkMutation`,
`AccountOrder`: the picker's bulk changes and account order.

## What the code does not promise

Each of these is a behaviour of the source kept as it is, with the lemma that says
exactly when it happens and one that exhibits it.

- **An import can be undone by a stranded journal.** `import_grant` saves the new
  grant before it removes an old journal, and recovery accepts a journal of equal
  generation, although the comment at broker.rs:331 says that a new authorization
  supersedes it. `StrandedJournalBeatsImport` says exactly when and
  `ImportCanBeUndone` is such a run. With imports not cut off there,
  `GenerationNamesOneCredential` holds.
- **A stranded journal switches the consumer back on.** Recovery restores the flag
  copied at request time. `SwitchingOffPausesExactlyWhen` and
  `RecoveryRestoresTheSwitch` delimit it, `SwitchComesBack` is a run from an empty
  store; without such a journal `PausedStaysPaused` holds.
- **A suspended sync is not always saved.** When the consumer deleted a synced file
  and the last recorded sync error is already a conflict, nothing is written
  (broker.rs:588), so the suspension is reported but forgotten:
  `SuspensionIsSavedUnlessConflictWasRecorded`, and the run `SuspensionIsForgotten`.
- **A directory shared without a lock loses updates.** Locks are per account
  (broker.rs:517), and a sync does not look again at what it scanned.
  Two accounts whose emails differ only in dropped characters share a file name, and
  the second write removes the first account's file, which counts as synced
  (`SharedNameLosesAFile`, `SharedNameExists`); a `disabled` switch flipped between
  scan and write is overwritten (`SwitchFlipIsLost`, `SwitchFlipExists`); a rename can
  take a file that has become another account's and leave that one with two
  (`StaleRenameLeavesTwoFiles`, `StaleRenameExists`). `ForeignFilesAreKeptExactlyWhen`,
  `SwitchIsKeptExactlyWhen` and `StepSparesOtherExactlyWhen` give the conditions;
  where no name is shared, `ApartNamesNeverCollide` rules the last one out and
  `ApartNamesKeepEveryPromise` holds. What concerns tokens, generations and credentials
  holds whatever becomes of the directory (`PromisesHoldInEveryInterleaving`).
- **A login cut off at the wrong moment lets an old credential come back.** A login
  saves NoTrace as the authority before it removes `.pending-refresh`
  (auth.rs:960-969); if it stops in between, the next refresh adopts whatever valid
  credential of the same account lies there (auth.rs:662-673), even one already
  passed to the Broker. `LoginIsSafeUnlessExposing` says exactly when,
  `WindowIsReachable` and `ExposedTokenIsSent` exhibit it, and
  `HandedOverIsNeverTakenBack` and `NoTokenServesBoth` hold on every other run.
- **A failed bulk change is all-or-nothing only if** the window showed the true
  values and the failing call had no effect: `BulkIsAllOrNothingExactlyWhen`, and
  `BulkChangeThatIsNotUndone` for both failures. The tag deletion re-reads and rolls
  the failing call back, so it needs neither.
- **An ACL rollback gives up, rather than skips,** when a recorded name has become a
  symbolic link or a recorded file has lost its ACL attribute; files after that point
  keep the repaired ACL. `UntouchedIsRestoredExactlyWhen` says which, and
  `AbortLeavesLaterFilesRepaired` is a case of it.
- **Canvas noise stays when putting a pixel back throws.** Restoring passes over such
  a pixel (spoof.js:454-456). `RestoringHealsExactlyWhen` says when the canvas is as
  before, and `StuckPixelStays` is a pixel that is not.
- **"Close all" waits only for the current launches.** A superseded launch can still
  be running when the wait returns: `EmptyMapCanLeaveOne`;
  `EmptyMapMeansDoneExactlyWhen` says when none is.
- The lower clamp of ten seconds in `due_at` never applies: a lifetime counts as at
  least sixty seconds, so a refresh is due at least twelve seconds early
  (`Grant.DueAt`).

## Assumptions

- A durable step (atomic write, rename, removal, lock) happens or does not. Locks
  make calls on one account exclusive; a busy call takes no step. The scan of the
  consumer directory is one step, and so are a rename or a write together with the
  existence and link checks just before it. A rename may also overwrite a destination
  taken since the scan, which the source mostly refuses (broker.rs:557-561): the runs
  covered include more than the source makes. Only the promises about the consumer's
  files ask that no rename takes another account's file (`TakesAnothersFile`): what
  that does is under "What the code does not promise".
- An accepted import brings a refresh token not sent before, and so does a reply that
  rotates it; a reply may keep the token (broker.rs:1082-1083). A listing of the
  consumer directory is complete (`HonestCall`). For what concerns its files, the
  consumer may delete the account's file or flip its `disabled` switch, and nobody else
  forges the account's marker (`Honest`, `OutsideAllowed`).
- Between desktop and Broker, an import brings a token that the desktop handed over,
  from its own files or from one the user picked, or that it never had; and the
  provider gives neither party a token only the other one has (`JointHonest`).
- SHA-256 digests are injective, encryption is the identity, a JWT carries its claims,
  blank JSON fields are missing fields, and the text of a time stands for that time.
- Counters that the source keeps in 64 bits are unbounded; the failure counts saturate
  at 32 bits as in the source. Hash words wrap as in the source. Scale factors are
  exact reals.
- Between its own steps, a bulk change is the only writer of the accounts it changes.
- Checking an ACL attribute and setting it is one step of the repair and of the
  rollback (cpa-broker-acl.py:118-120 and 156-163): an edit between the two calls would
  be lost.

## Model

| member | source | states |
|---|---|---|
| Grants.Grant.DueAt | crates/cloak-core/src/broker.rs:209-213 | a refresh is due a fifth of the lifetime before expiry, but no less than twelve seconds and no more than 36 hours |
| Grants.ParseGrant | crates/cloak-core/src/broker.rs:955-1015 | an accepted import is unexpired, unblocked, has the consumer off, belongs to the key, and is identified by the digest of its own refresh token; which bodies are accepted, and where each part of one goes, is BrokerImports.CompletedImport |
| Grants.RefreshOutcome | crates/cloak-core/src/broker.rs:1017-1113 | each answer is given for exactly its replies: recovery for a dropped request and for a success that cannot be read, a final refusal for status 401 or one of six codes, a temporary one for no connection or any other refusal, unchanged for the same two tokens, and otherwise the credential the reply brings, field by field, one generation and one refresh further |
| BrokerReplies.CompletedRequestRecordsFailure | crates/cloak-core/src/broker.rs:404-433 | a completed request that brings no new credential counts one failure: after an unknown outcome the grant is blocked for recovery without a retry time; after a final refusal for reauthorization with the consumer off; after a temporary one or the same tokens it may retry in 900, 3600 or 21600 seconds |
| BrokerReplies.CompletedRequestRecordsRotation | crates/cloak-core/src/broker.rs:388-403 | a completed request that brings a new credential makes it the grant, failures forgotten, counted as automatic unless forced, with no journal left; of another account it stays in the journal, the grant stays in flight, and the call reports it |
| BrokerReplies.RefreshWithoutRequest | crates/cloak-core/src/broker.rs:344-383 | a refresh that makes no request recovers a journal of the account that is not older, switches the consumer of a blocked account off, or changes nothing, and answers accordingly |
| BrokerReplies.TransmitsExactlyWhen | crates/cloak-core/src/broker.rs:344-387 | an event sends a token exactly when it is a refresh that may make a request, lives for two steps, and the token is the grant's |
| BrokerReplies.UnansweredIsRetired | crates/cloak-core/src/broker.rs:384-433 | after a reply that does not say the token is still good, or a crash before the reply is on record, no file holds the token in a state from which it could be sent |
| BrokerReplies.SentAgainOnlyAfterAGoodReply | crates/cloak-core/src/broker.rs:339-435 | over every run, a token is sent again only if the reply to every earlier request carrying it said that it is still good (no connection, a refusal that is not final, or a success that leaves it in place) and was put on record |
| BrokerImports.CompletedImport | crates/cloak-core/src/broker.rs:304-338 | for every body, a completed import is accepted exactly if the body is consistent, living, of the account and neither the last handover nor the current token; then each token is in its own field, expiry and issue time are those of the access token, email, account, plan and subscription those of the claims in their order, counters and markers continue, and no journal is left; otherwise nothing changes and the answer says why |
| BrokerImports.ImportedTokensReachTheConsumer | crates/cloak-core/src/broker.rs:304-592 | after an accepted import, switching the consumer on and an unobstructed sync, the consumer's file holds the access and ID token of the imported body |
| CpaDirectory.CanonicalNameIsScanned | crates/cloak-core/src/broker.rs:758-765 | the email-derived name is one the directory scan looks at, for every email and key |
| CpaDirectory.NameStaysInTheDirectory | crates/cloak-core/src/broker.rs:833-846 | whatever the email, the file name has only plain characters and so stays in the directory; a plain email is the name itself |
| CpaDirectory.ProjectionIsCurrent | crates/cloak-core/src/broker.rs:247-267 | a projection carries the account's marker and generation, never a refresh token, keeps the operator's switch, and is a fixed point of projecting again |
| CpaDirectory.ProjectionCarriesTheCredential | crates/cloak-core/src/broker.rs:247-267 | whatever document it replaces, a projection carries, field by field, the tokens without the refresh token, the account, times and plan, and the marker |
| CpaDirectory.IdentityMatchesExactlyWhen | crates/cloak-core/src/broker.rs:848-860 | a document is of the grant's identity exactly when it, or failing that its token object, says the grant's account id, or its email in whatever letter case |
| CpaDirectory.FindOwnFile | crates/cloak-core/src/broker.rs:753-831 | the scan loop finds what the recursive scan defines; over a complete listing it succeeds exactly when nothing in the directory stands in the way, and then finds the account's own file, if there is one |
| CpaDirectory.ScanMeaning | crates/cloak-core/src/broker.rs:753-831 | whatever the listing order, the scan succeeds exactly when no file is judged to refuse it and at most one is the account's own, and then reports that file |
| CpaDirectory.ScanSucceedsExactlyWhen | crates/cloak-core/src/broker.rs:753-831 | without the scan's own judgement: it succeeds exactly when at most one file carries the account's marker, no file is suspicious (a link, an oversized file, an own file with a refresh token, another credential of the identity, an unreadable file named after the email), and none without the marker, unreadable or unparsable has one of the account's two names |
| CpaDirectory.ScanErrorIsExplained | crates/cloak-core/src/broker.rs:761-820 | a scan that stops names its reason: a storage error for a link or an unreadable file, an oversized input for a large one, and otherwise a conflict |
| BrokerStores.BrokerStore.ImportGrant | crates/cloak-core/src/broker.rs:304-338 | cut off anywhere, an import leaves the files where its plan does, answers as the plan does, and touches no other account; what a completed one comes to is BrokerImports.CompletedImport |
| BrokerStores.BrokerStore.Refresh | crates/cloak-core/src/broker.rs:339-383 | cut off anywhere, a refresh (terminal, recovering, blocked, not due or due) leaves the files where its plan does; what a completed one comes to is BrokerReplies |
| BrokerStores.BrokerStore.Request | crates/cloak-core/src/broker.rs:384-434 | intent, request, journal, promotion and removal, or the failure record, happen in this order up to the crash; what a completed one comes to is BrokerReplies |
| BrokerStores.BrokerStore.SetCpaEnabled | crates/cloak-core/src/broker.rs:487-514 | switching the consumer on or off is one save or a refusal that changes nothing |
| BrokerStores.BrokerStore.AcknowledgeCockpit | crates/cloak-core/src/broker.rs:476-486 | only an acknowledgement of the current generation is saved |
| BrokerStores.BrokerStore.SyncCpa | crates/cloak-core/src/broker.rs:515-592 | cut off anywhere, a sync has renamed, written and recorded a prefix of its plan; what a completed one comes to is SyncOutcomes |
| BrokerStores.BrokerStore.CycleAccount | crates/cloak-core/src/broker.rs:616-643 | one visit is an unforced refresh and then, judged by what is on disk after it, a sync; its storage error is reported; what a completed one comes to is BrokerPass.VisitSyncsExactlyWhen |
| BrokerStores.BrokerStore.RunCycle | crates/cloak-core/src/broker.rs:594-646 | a whole pass is exactly its visits' calls one after another, reports the last storage error, and changes no account outside the store's keys; what a completed one comes to is BrokerPass.PassPublishesEveryHealthyAccount |
| BrokerRuns.ImportIsLawful | crates/cloak-core/src/broker.rs:304-338 | every step of an import is legal where it happens |
| BrokerRuns.RefreshIsLawful | crates/cloak-core/src/broker.rs:339-435 | every step of a refresh is legal where it happens: an intent only from an unblocked grant without a journal, a request only right after its intent, a record only right after its request |
| BrokerRuns.SettingsAreLawful | crates/cloak-core/src/broker.rs:476-514 | settings and acknowledgements change bookkeeping only |
| BrokerRuns.SyncIsLawful | crates/cloak-core/src/broker.rs:515-592 | every rename and write of a sync concerns the account's own file, and a generation is recorded as synced only when the file is current |
| BrokerRuns.CallsAreLawful | crates/cloak-core/src/broker.rs:276-592 | the same for all five calls |
| BrokerSafety.UnsettledIsUnresolved | crates/cloak-core/src/broker.rs:384-387 | the token of a request never durably answered stays in the set of unresolved tokens |
| BrokerSafety.TokensStep | crates/cloak-core/src/broker.rs:354-387 | every legal step keeps unresolved tokens in blocked grants only, so none is sent again |
| BrokerSafety.CountedStep | crates/cloak-core/src/broker.rs:321-336 | every legal step keeps generations ascending in grant and consumer file, and the counters below the generation |
| BrokerSafety.FilesStep | crates/cloak-core/src/broker.rs:536-590 | every legal step keeps at most one own file, never ahead of the grant, and current once recorded as synced |
| BrokerSafety.NothingLostStep | crates/cloak-core/src/broker.rs:398-402 | every legal step keeps the newest journaled credential in some file |
| BrokerSafety.OutsideKeepsInv | crates/cloak-core/src/broker.rs:565-571 | what the consumer may do to the directory breaks no invariant |
| BrokerSafety.RunsKeepCore | crates/cloak-core/src/broker.rs:304-646 | what concerns tokens, generations, counters and credentials holds after every run of calls cut off anywhere, whatever is done to the directory between calls |
| BrokerSafety.RunsKeepInv | crates/cloak-core/src/broker.rs:304-646 | all invariants hold after every run of calls cut off anywhere, with the consumer editing the directory between calls |
| BrokerInterleaving.InterleavedRunIsARun | crates/cloak-core/src/broker.rs:515-592 | however the directory is changed between a sync's scan and each of its steps, whichever file steps fail, and wherever calls are cut off, files, history and calls are those of a run of whole calls; and that run's outside keeps to the consumer's part of the directory if the interleaved one's did |
| BrokerInterleaving.StaleStep | crates/cloak-core/src/broker.rs:543-572 | made in a directory that the outside world has changed since the scan, a legal step leaves a directory that the outside world could have made of what the step leaves in the scanned one |
| BrokerConcurrency.StepSparesOtherExactlyWhen | crates/cloak-core/src/broker.rs:557-572 | a file step of one account does to another account no more than the consumer may do, exactly when it does not rename that account's file |
| BrokerConcurrency.EveryInterleavingIsARunOfEach | crates/cloak-broker/src/main.rs:51-72 | with all accounts' steps interleaved under per-account locks, and anything done to the directory, each account is in a state that a run of its own calls reaches; unless a stale rename took another account's file, the outside of that run is one the consumer is allowed |
| BrokerConcurrency.EveryInterleavingKeepsInv | crates/cloak-broker/src/main.rs:51-72 | every interleaving of all accounts keeps what concerns tokens, generations and credentials of each account, and, unless a stale rename took another account's file, its invariants about consumer files too |
| BrokerConcurrency.PromisesHoldInEveryInterleaving | crates/cloak-broker/src/main.rs:51-72 | in every interleaving from an empty store, whatever is done to the directory: no token sent again while its outcome is unknown, generations ascending, journaled rotations kept; and, unless the consumer forges a file or a stale rename takes another account's, at most one own file, current once recorded as synced |
| BrokerConcurrency.FleetRunIsAnInterleaving | crates/cloak-core/src/broker.rs:594-646 | one call after another, the scheduler's pass included, is one of those interleavings |
| BrokerRaces.ApartNamesNeverCollide | crates/cloak-core/src/broker.rs:833-846 | where no sync uses a file name of another account, no interleaving lets a rename take another account's file |
| BrokerRaces.ApartNamesKeepEveryPromise | crates/cloak-core/src/broker.rs:833-846 | from an empty store, accounts that share no file name keep all of these promises in every interleaving |
| BrokerRaces.ForeignFilesAreKeptExactlyWhen | crates/cloak-core/src/broker.rs:557-572 | a file step in a directory changed since the scan leaves every other file alone exactly when neither of its names is a foreign file's by then |
| BrokerRaces.SwitchIsKeptExactlyWhen | crates/cloak-core/src/broker.rs:553-572 | a write keeps the operator's switch exactly when it is still as scanned |
| BrokerRaces.SharedNameLosesAFile | crates/cloak-core/src/broker.rs:833-846 | two accounts with one file name scan a free destination; the second write removes the first account's file, which stays recorded as synced |
| BrokerRaces.SharedNameExists | crates/cloak-core/src/broker.rs:833-846 | two such accounts, with emails that differ in one special character |
| BrokerRaces.SwitchFlipIsLost | crates/cloak-core/src/broker.rs:553-572 | a file disabled between scan and write is enabled again |
| BrokerRaces.SwitchFlipExists | crates/cloak-core/src/broker.rs:553-572 | a grant and a file for which that happens |
| BrokerRaces.StaleRenameLeavesTwoFiles | crates/cloak-core/src/broker.rs:557-564 | a rename takes a file that has become another account's, which then has two |
| BrokerRaces.StaleRenameExists | crates/cloak-core/src/broker.rs:557-564 | two accounts and files for which that happens |
| BrokerTheorems.UnknownOutcomeIsNeverRetried | crates/cloak-core/src/broker.rs:384-387 | in no run is a refresh token sent again unless the step right after the earlier request put an answer other than an unknown outcome on record; which replies lead to that is BrokerReplies.SentAgainOnlyAfterAGoodReply |
| BrokerTheorems.RotatedCredentialSurvives | crates/cloak-core/src/broker.rs:398-402 | in every run a rotation whose journal write completed is still in the journal or the grant file until another credential supersedes it |
| BrokerTheorems.GenerationsGoForward | crates/cloak-core/src/broker.rs:321-323 | in every run generations never go back in either file, and automatic count <= count < generation |
| BrokerTheorems.ConsumerFileIsCurrent | crates/cloak-core/src/broker.rs:573-590 | in every run of whole calls, the consumer has at most one file of the account, and one present when the current generation counts as synced holds the current access credential; PromisesHoldInEveryInterleaving extends it to every interleaving |
| BrokerTheorems.BlockedAccountIsInert | crates/cloak-core/src/broker.rs:365-379 | a blocked account without a journal makes no request, writes no consumer file and cannot be enabled, in any run, until a new import is accepted |
| BrokerTheorems.TerminalIsStuck | crates/cloak-core/src/broker.rs:344-379 | in every run, recording ReauthRequired or RecoveryRequired puts the account in that inert state |
| BrokerTheorems.RequestIsMadeExactlyWhen | crates/cloak-core/src/broker.rs:344-387 | of all calls only a refresh sends, exactly when nothing is to be recovered, nothing blocks, and it is forced or due and past its retry time |
| BrokerTheorems.RetriedHandoffChangesNothing | crates/cloak-core/src/broker.rs:311-315 | after any number of rotations, handing over the original credential again leaves everything as it is |
| BrokerTheorems.StrandedJournalBeatsImport | crates/cloak-core/src/broker.rs:330-363 | the next refresh replaces an imported grant by the old journal exactly when the import was cut off after its first step and generations and identities agree |
| BrokerTheorems.ImportCanBeUndone | crates/cloak-core/src/broker.rs:330-363 | a run in which that happens |
| BrokerTheorems.VersionedStep | crates/cloak-core/src/broker.rs:321-361 | every legal step keeps one credential per generation and generation = refreshes + imports |
| BrokerTheorems.GenerationNamesOneCredential | crates/cloak-core/src/broker.rs:304-435 | in every run without a split import, equal generations mean equal credentials for ever, and the generation counts refreshes and imports exactly |
| BrokerTheorems.IdentityNeverChanges | crates/cloak-core/src/broker.rs:310-401 | over every run a grant stays there and keeps its account id, and its email up to case |
| BrokerFleet.VisitMeaning | crates/cloak-core/src/broker.rs:616-643 | a visit is its refresh and then, for whom it is ready to sync, its sync with the steps that are left |
| BrokerPass.VisitSyncsExactlyWhen | crates/cloak-core/src/broker.rs:616-643 | with steps enough, a visit refreshes the account and then syncs it exactly when the grant on disk after the refresh has the consumer on, no error and no request in flight |
| BrokerPass.VisitPublishes | crates/cloak-core/src/broker.rs:616-643 | a healthy, enabled account whose directory is listed and unobstructed has its current credential in the directory and its generation recorded as synced after its visit |
| BrokerPass.PassPublishesEveryHealthyAccount | crates/cloak-core/src/broker.rs:594-646 | over distinct accounts, everyone healthy, enabled and unobstructed when visited is so at the end of the pass: no other visit touches its grant or its file |
| BrokerPass.VisitReportsNothingExactlyWhen | crates/cloak-core/src/broker.rs:616-643 | a visit reports nothing exactly when the account is there, its refresh met no storage error, and its sync neither met nor recorded one; of two errors it reports that of the sync |
| BrokerPass.PassReportsTheLastError | crates/cloak-core/src/broker.rs:594-646 | a pass reports the error of the last visit that met one |
| CpaSync.DestinationIsFree | crates/cloak-core/src/broker.rs:557-561 | after a successful scan the existence check on the destination never fires |
| CpaSync.FileWorkPublishes | crates/cloak-core/src/broker.rs:543-572 | a fault-free sync fails exactly for reasons found before touching a file, and otherwise publishes |
| CpaSync.SyncPublishesOrTouchesNothing | crates/cloak-core/src/broker.rs:515-592 | for every directory that nothing else touches meanwhile: exactly one own file, under the email-derived name, current, switch kept, all other files untouched; or no file changed, the synced generation unchanged, an error on record |
| SyncOutcomes.SyncPublishesExactlyWhen | crates/cloak-core/src/broker.rs:515-592 | a completed, fault-free sync of an enabled, unblocked account publishes exactly when at most one file carries its marker, no file is suspicious, none without the marker, unreadable or unparsable has one of its two names, no synced file is missing, and the credential has not expired; otherwise no file is touched and an error is on record |
| SyncOutcomes.FailedSyncRecordsWhy | crates/cloak-core/src/broker.rs:573-590 | the error of a failed sync is that of a file in the way or of two own files; a missing file switches the consumer off; an expired credential asks for reauthorization |
| SyncOutcomes.SyncWithoutFiles | crates/cloak-core/src/broker.rs:515-542 | nothing is done for an account whose consumer is off, a blocked one has it switched off, and a directory that is not configured, a link, or cannot be listed is reported |
| SyncOutcomes.FaultySyncRecordsIt | crates/cloak-core/src/broker.rs:553-590 | a rename or write that fails is on record, does not count as synced, and leaves the old document under its old or new name, or the new one not yet safe on disk; a fault in a step that is not needed changes nothing |
| SyncOutcomes.SyncAnswersWithTheRecord | crates/cloak-core/src/broker.rs:573-592 | a sync that reads the directory answers with the grant as it then is on disk, or with a suspension that it did not save |
| SyncOutcomes.EnabledMeaning | crates/cloak-core/src/broker.rs:487-514 | switching on is refused for a missing or blocked account or without a directory, and otherwise forgets what was synced and the last sync error; switching off only ends the projection |
| SyncOutcomes.AcknowledgedMeaning | crates/cloak-core/src/broker.rs:476-486 | only the current generation is acknowledged, and nothing else changes |
| CpaSync.EnablingPublishesAgain | crates/cloak-broker/src/main.rs:218-227 | enabling and syncing publishes even after the consumer deleted the file, unless the directory or the clock obstructs it |
| CpaSync.SecondSyncIsSilent | crates/cloak-core/src/broker.rs:565-590 | a second sync before expiry takes no step at all |
| CpaSync.PublishedFileStandsAlone | crates/cloak-core/src/broker.rs:793-819 | after a successful sync the published file carries the account's access and id token, identity and expiry with a blank refresh token, and no other readable file in the directory is a credential of the same identity |
| CpaSync.SuspiciousFileStopsTheSync | crates/cloak-core/src/broker.rs:761-820 | next to a link, an oversized file, an own file with a refresh token, another credential of the identity, or a file that cannot be read or parsed under the account's name, a sync changes no file |
| CpaSync.RefreshTokenNeverReachesTheConsumer | crates/cloak-core/src/broker.rs:247-267 | the file work of a sync does not depend on the refresh token, whatever the directory, the clock and the faults |
| CpaSync.SyncErrorTellsWhy | crates/cloak-core/src/broker.rs:543-587 | with no refusing file, a failed sync reports a second own file, a missing file or an expired credential, in this order |
| CpaSync.SuspensionIsSavedUnlessConflictWasRecorded | crates/cloak-core/src/broker.rs:578-590 | a suspension is reported always and saved exactly when the recorded sync error was not already a conflict |
| ConsumerRuns.SuspensionIsForgotten | crates/cloak-core/src/broker.rs:578-590 | a run from an empty store in which a synced file turns to garbage and is deleted: the next sync answers suspended, saves nothing, and leaves the consumer on |
| ConsumerPause.PausedStaysPaused | crates/cloak-core/src/broker.rs:506-534 | once paused, no run writes or renames a consumer file of the account until somebody switches it on |
| ConsumerPause.PausedInEveryInterleaving | crates/cloak-core/src/broker.rs:506-534 | the same when anything is done to the directory between any two steps |
| ConsumerPause.SwitchingOffPausesExactlyWhen | crates/cloak-core/src/broker.rs:487-514 | switching off pauses exactly when no journal with the consumer on is stranded |
| ConsumerPause.RecoveryRestoresTheSwitch | crates/cloak-core/src/broker.rs:354-363 | recovering a journal restores the switch saved in it |
| ConsumerRuns.SwitchComesBack | crates/cloak-core/src/broker.rs:354-363 | a run from an empty store in which the consumer is switched off and the next refresh switches it on again |
| ConsumerPause.BlockedAccountIsSwitchedOff | crates/cloak-core/src/broker.rs:344-379 | the first refresh or sync that meets a blocked account switches the consumer off, stops the retries, records why, and touches no file |
| ConsumerPause.TerminalRefusalSwitchesOff | crates/cloak-core/src/broker.rs:405-432 | a request refused for good records the refusal and switches the consumer off in the same save |
| RenewalCounts.RenewalIsCountedOnce | crates/cloak-core/src/broker.rs:384-434 | counters move only with the generation, by one renewal, automatic unless forced; a failed request counts nothing |
| RenewalCounts.NothingElseCounts | crates/cloak-core/src/broker.rs:321-323 | reauthorization keeps the totals, and settings, acknowledgements and syncs leave them alone |
| RenewalCounts.RecoveryCountsOnce | crates/cloak-core/src/broker.rs:354-363 | recovery adopts the journal's counts, and repeating it after a crash adds nothing |
| Acknowledgements.AcknowledgedIsNeverAhead | crates/cloak-core/src/broker.rs:476-486 | in every run an acknowledged generation is one the grant has reached |
| Backoff.RunKeepsPace | crates/cloak-core/src/broker.rs:380-433 | every run of unforced refreshes keeps each wait between requests |
| Backoff.SchedulerWaitsBetweenRequests | crates/cloak-core/src/broker.rs:408-422 | since the last success or import, requests are 900, then 3600, then 21600 seconds apart, so the k-th (k >= 3) comes 4500 + 21600 (k - 3) seconds or more after the first |
| Backoff.SchedulerWaitsInEveryInterleaving | crates/cloak-core/src/broker.rs:408-422 | the same waits when anything is done to the directory between any two steps |
| LocalHomes.LocalHome.Refresh | crates/cloak-core/src/auth.rs:640-703 | cut off anywhere, a local refresh has made a prefix of its moves; what a completed one comes to is LocalOutcomes.CompletedRefresh and LeftOverIsRecovered |
| LocalHomes.LocalHome.FinishSession | crates/cloak-core/src/auth.rs:704-732 | what the client left is adopted, swept or kept for recovery, in the same way; what a completed one comes to is LocalOutcomes.CompletedRefresh |
| LocalHomes.LocalHome.Login | crates/cloak-core/src/auth.rs:952-978 | cut off anywhere, a login has made a prefix of its moves; what a completed one comes to is LocalOutcomes.CompletedLogin |
| LocalHomes.LocalHome.Fail | crates/cloak-core/src/auth.rs:355-375 | a failure is counted once, unless busy or cancelled |
| LocalAuth.FailedPolicy | crates/cloak-core/src/auth.rs:355-375 | a failure leaves the authority alone, is retried after 15 minutes to six hours, and never if it is terminal |
| LocalHomes.LocalHome.GiveToBroker | crates/cloak-core/src/auth.rs:612-635 | cut off anywhere, handing the own credential over has made a prefix of its moves: freeze, then send |
| LocalHomes.LocalHome.ImportToBroker | crates/cloak-core/src/auth.rs:512-534 | cut off anywhere, handing a credential from a file over has made a prefix of its moves: freeze, send, and clear the record once the Broker accepted |
| LocalHomes.LocalHome.SetAuthority | crates/cloak-core/src/auth.rs:476-507 | cut off anywhere, setting the authority has made a prefix of its moves, none if it is refused |
| LocalHomes.LocalHome.SetAutoRefresh | crates/cloak-core/src/auth.rs:450-470 | cut off anywhere, switching automatic refresh has made a prefix of its moves, none if it is refused |
| LocalOutcomes.CompletedRefresh | crates/cloak-core/src/auth.rs:683-731 | from a readable credential file without a working directory, a completed refresh adopts what the session left, with success on record, exactly when it has other tokens, lives for more than a minute and is of the account; another account is an identity failure, the same tokens leave the failure of the session on record, and anything else means recovery, all with the credential file as before; after a final failure nothing happens |
| LocalOutcomes.RefreshSucceedsExactlyWhen | crates/cloak-core/src/auth.rs:703-717 | the success condition by itself, both directions |
| LocalOutcomes.LeftOverIsRecovered | crates/cloak-core/src/auth.rs:661-682 | a working directory left over is adopted exactly when its credential has other tokens, has not expired and is of the account, even after a final failure; with the same tokens it is swept away before a session; otherwise it means recovery |
| LocalOutcomes.RefreshWithoutCredential | crates/cloak-core/src/auth.rs:640-660 | under another authority or without a credential file nothing happens, and an unreadable one is put on record |
| LocalOutcomes.CompletedLogin | crates/cloak-core/src/auth.rs:944-978 | a login installs the credential it obtained exactly when that has not expired and is of the account, with NoTrace the authority, automatic refresh on, success on record and older leftovers gone; otherwise nothing changes |
| LocalOutcomes.CompletedHandOver | crates/cloak-core/src/auth.rs:612-635 | a completed hand-over sends the token of the readable credential file after recording the Broker as authority, or does nothing |
| LocalOutcomes.CompletedImport | crates/cloak-core/src/auth.rs:512-534 | the same with a token from a file, and the record cleared once the Broker accepted |
| LocalOutcomes.CompletedSettings | crates/cloak-core/src/auth.rs:450-507 | when authority and automatic refresh are set, and to what |
| LocalPolicy.FrozenBeforeItLeaves | crates/cloak-core/src/auth.rs:512-635 | whenever an operation hands a credential to the Broker, its own or one from a file, the Broker already is the recorded authority and automatic refresh is off |
| LocalPolicy.EnabledOnlyUnderNoTrace | crates/cloak-core/src/auth.rs:461-501 | over every run, automatic refresh is on only while NoTrace is the authority |
| LocalPolicy.AuthorityChangesOnlyIf | crates/cloak-core/src/auth.rs:484-501 | the authority changes only in a login, which makes it NoTrace, from NoTrace to the Broker in passing a credential on, or on request while the credential file is readable and never away from the Broker |
| HandoverSafety.RefreshIsAllowed | crates/cloak-core/src/auth.rs:640-732 | from a frozen directory, no move of a refresh thaws it or sends a handed-over token |
| HandoverSafety.LoginIsSafeUnlessExposing | crates/cloak-core/src/auth.rs:952-978 | a login leaves the directory frozen exactly when it does not stop between taking the authority and sweeping a handed-over credential |
| HandoverSafety.HandedOverIsNeverTakenBack | crates/cloak-core/src/auth.rs:509-652 | in every run without such a stop, the desktop never sends the provider a token passed to the Broker, from its own files or from one the user picked, lost replies and crashes included |
| HandoverSafety.OnlyLoginTakesAuthorityBack | crates/cloak-core/src/auth.rs:958-964 | authority returns from the Broker only in a login whose credential is already in the credential file |
| Custody.CallWithin | crates/cloak-core/src/broker.rs:304-592 | a Broker call handles no refresh token but those in the account's files and those it brings in |
| Custody.ActWithin | crates/cloak-core/src/auth.rs:612-978 | a desktop operation handles no refresh token but those in its files and those it brings in |
| Custody.NoTokenServesBoth | crates/cloak-core/src/auth.rs:509-652 | in every joint run of desktop and Broker without an exposing login, imports late, repeated or lost, every request the desktop made with a token the Broker holds or sent, its rotated ones included, came before the desktop handed that token over |
| LocalRotation.TokenIsSentExactlyWhen | crates/cloak-core/src/auth.rs:646-703 | of all operations only a refresh sends a token, and only while NoTrace is the authority, no terminal failure is recorded and no other credential waits to be recovered |
| LocalRotation.ExposedTokenIsSent | crates/cloak-core/src/auth.rs:662-673 | from the exposed state, two refreshes adopt and send the handed-over token |
| LocalRotation.WindowIsReachable | crates/cloak-core/src/auth.rs:958-969 | a run that reaches the exposed state |
| LocalRotation.RotatedCredentialIsKept | crates/cloak-core/src/auth.rs:573-732 | wherever a run is cut off, the last credential a refresh brought is in the working directory or, by digest, in the credential file, until a login succeeds |
| LocalRotation.CompletedRefreshTidiesUp | crates/cloak-core/src/auth.rs:661-731 | a refresh that runs to its end leaves a working directory only with a terminal failure on record |
| LocalRotation.AccountNeverChanges | crates/cloak-core/src/auth.rs:553-572 | over every run a readable credential file stays readable and its known email and account id never change |
| LoginLoop.FirstVerdictMeaning | crates/cloak-core/src/auth.rs:1301-1312 | there is a verdict exactly when some message concludes the login, and it is the success or the refusal of the first one |
| LoginLoop.RpcSession.Request | crates/cloak-core/src/auth.rs:1243-1268 | the loop over the receive loop computes the wait for a reply, message by message |
| LoginLoop.AskMeaning | crates/cloak-core/src/auth.rs:1243-1268 | the answer is the first reply to the request; every earlier completion is queued in order and no message is lost; without an answer the wait was cancelled, timed out or hung up on, or met a seventeenth completion |
| LoginLoop.RpcSession.ReceiveChecked | crates/cloak-core/src/auth.rs:1204-1242 | the loop returns the outcome of the first moment that has one: at each poll a cancellation beats a queued message and that beats a hang-up; at each look that finds the browser closed a cancellation beats a late message and that beats the closing; while waiting the deadline comes first |
| LoginLoop.ListenEndsAtTheFirst | crates/cloak-core/src/auth.rs:1204-1242 | the receive loop ends at the first moment that does not let it go on: a message is taken as soon as one is there, a cancellation, a deadline, a hang-up and a closed browser are each reported exactly when the moment that notices them comes and nothing goes before |
| LoginLoop.ListenIsJustified | crates/cloak-core/src/auth.rs:1204-1242 | a failed wait is justified by its last moment: cancelled, past the deadline, hung up on with nothing unread, or closed for eight seconds with nothing unread and nobody cancelling |
| LoginLoop.RpcSession.WaitLogin | crates/cloak-core/src/auth.rs:1269-1314 | early completions first, each after a look at the cancel flag, and then the receive loop with the browser in view, message by message |
| LoginLoop.AwaitMeaning | crates/cloak-core/src/auth.rs:1269-1314 | the verdict is that of the first matching completion among everything unread and still to come; any other end leaves no matching completion among the messages read |
| LoginLoop.BrowserClosedMeans | crates/cloak-core/src/auth.rs:1221-1228 | a login is reported as closed only if no completion of it has come by then, nobody cancelled at that moment, and every look of the last eight seconds or more counted as closed |
| LoginLoop.ClosureIsReported | crates/cloak-core/src/auth.rs:1211-1228 | with nothing queued, arriving or cancelled, the look that finds the browser closed ends the login as closed |
| LoginLoop.CancellationIsHeeded | crates/cloak-core/src/auth.rs:1279-1282 | once the cancel flag is set, the wait ends within three more moments whatever arrives |
| LoginLoop.Login | crates/cloak-core/src/auth.rs:914-933 | a login is its two requests and then the wait, on one session |
| LoginLoop.LoginMeaning | crates/cloak-core/src/auth.rs:914-933 | a login's verdict is that of the first completion for its id among all messages of the session, before or after the reply that announced the id; and it is reported as closed only if no completion for its id has come since the session began |
| LoginLoop.FailedRequestEndsTheLogin | crates/cloak-core/src/auth.rs:914-933 | a request that fails ends the login with its failure, and there is no answer only if the history ends before |
| LoginBrowser.SeenWindowMeaning | crates/cloak-core/src/auth.rs:836-845 | a window counts as seen exactly when some look showed one |
| LoginBrowser.ClosedSinceMeaning | crates/cloak-core/src/auth.rs:836-860 | the recorded start of a closed run is that of an unbroken run of closed looks |
| LoginBrowser.UnbrokenRunIsRecorded | crates/cloak-core/src/auth.rs:836-860 | any unbroken run of closed looks up to the last one is recorded from its first look or from an earlier one |
| LoginBrowser.ClosedLongEnoughMeaning | crates/cloak-core/src/auth.rs:836-860 | the recorded run is eight seconds old exactly when every look of the last eight seconds or more counted as closed |
| LoginBrowser.AuthBrowserMonitor.Check | crates/cloak-core/src/auth.rs:815-862 | looks are half a second apart, and one reports the browser closed exactly when the recorded run of closed looks is eight seconds old |
| LaunchRegistry.EveryInterleavingIsSafe | cloak-picker/src-tauri/src/lib.rs:307-360 | in every interleaving the map holds exactly the unfinished newest launches and every superseded one is flagged |
| LaunchRegistry.BeginMeaning | cloak-picker/src-tauri/src/lib.rs:308-322 | while closing nothing begins; otherwise one unflagged launch is added as the current one of its name, and exactly the one current before is flagged |
| LaunchRegistry.FinishMeaning | cloak-picker/src-tauri/src/lib.rs:324-334 | a finish marks that launch and nothing else, and takes a current one out of the map |
| LaunchRegistry.CancelMeaning | cloak-picker/src-tauri/src/lib.rs:336-346 | cancelling a name flags its current launch and no other |
| LaunchRegistry.CloseMeaning | cloak-picker/src-tauri/src/lib.rs:348-360 | closing all flags exactly the current launches, unless somebody is closing already, and the guard only admits launches again |
| LaunchRegistry.LateFinishRemovesNothingNewer | cloak-picker/src-tauri/src/lib.rs:324-334 | a late finish removes no newer token |
| LaunchRegistry.NothingBeginsWhileClosing | cloak-picker/src-tauri/src/lib.rs:348-360 | until the guard drops, every unfinished launch is flagged, none begins, and the map only shrinks |
| LaunchRegistry.EmptyMapLeavesOnlySuperseded | cloak-picker/src-tauri/src/lib.rs:362-378 | when the wait sees an empty map, what still runs is superseded and flagged |
| LaunchRegistry.EmptyMapCanLeaveOne | cloak-picker/src-tauri/src/lib.rs:362-378 | a run in which such a launch is left |
| LaunchRegistry.EmptyMapMeansDoneExactlyWhen | cloak-picker/src-tauri/src/lib.rs:362-378 | an empty map means that nothing runs exactly when no unfinished launch has been superseded, and so in every run in which no launch begins over an unfinished one of its name |
| LaunchRegistry.LaunchCancellationRegistry.Begin | cloak-picker/src-tauri/src/lib.rs:308-322 | refused while closing; otherwise a fresh token, with the previous one for the name flagged |
| LaunchRegistry.LaunchCancellationRegistry.Finish | cloak-picker/src-tauri/src/lib.rs:324-334 | removes the name only if the token is still the current one |
| LaunchRegistry.LaunchCancellationRegistry.Cancel | cloak-picker/src-tauri/src/lib.rs:336-346 | flags the current launch of the name and no other |
| LaunchRegistry.LaunchCancellationRegistry.BeginCloseAll | cloak-picker/src-tauri/src/lib.rs:348-360 | the loop flags exactly the current launches; a second closer is refused |
| LaunchRegistry.LaunchCancellationRegistry.DropGuard | cloak-picker/src-tauri/src/lib.rs:181-185 | admits launches again and changes nothing else |
| RenderPrivacy.Mix64IsBijective | packaging/native-engine/sources/base/notrace_render_privacy.h:10-14 | the mixer has a two-sided inverse on 64-bit words |
| RenderPrivacy.FoldSeparatesSeedsSharingHighHalf | packaging/native-engine/sources/base/notrace_render_privacy.h:42-46 | folding is injective on seeds that share a high half |
| RenderPrivacy.ScopeHash | packaging/native-engine/sources/base/notrace_render_privacy.h:23-30 | the loop computes the hash of the whole scope |
| RenderPrivacy.ScopesDifferingOnceNeverCollide | packaging/native-engine/sources/base/notrace_render_privacy.h:23-30 | scopes that differ in one character have different hashes |
| RenderPrivacy.FactorsStayNearOne | packaging/native-engine/sources/base/notrace_render_privacy.h:18-77 | font, rectangle and shader factors stay within 0.3%, 0.00015% and 0.6% of one, and are one without a seed |
| RenderPrivacy.FactorsSpanTheirRange | packaging/native-engine/sources/base/notrace_render_privacy.h:18-77 | each factor goes from one end of its range to the other |
| RenderPrivacy.FactorsTellWordsApart | packaging/native-engine/sources/base/notrace_render_privacy.h:18-77 | font and shader factors grow with the sixteen bits that they read |
| RenderPrivacy.RectFactorsTellWordsApart | packaging/native-engine/sources/base/notrace_render_privacy.h:32-40 | rectangle factors grow with the 32 bits that they read |
| RenderPrivacy.CanvasChannelSettles | packaging/native-engine/sources/base/notrace_render_privacy.h:48-67 | at most one level of change, end points fixed, idempotent, and the two levels of an interior bin come out alike |
| AclCodec.CodecRoundTrip | packaging/cpa-broker-acl.py:29-44 | decoding and encoding are inverse both ways on well-formed attributes |
| AclCodec.AttributeLayout | packaging/cpa-broker-acl.py:29-31 | the bytes of an attribute: version 2, then tag, permissions and id of each entry, lowest byte first |
| AclCodec.RepairsExactlyWhen | packaging/cpa-broker-acl.py:27-41 | an ACL is repaired exactly when it is well-formed, has three permission bits an entry, and has one entry each for owner, named user, group, mask and others, of which the user is the Broker and may read, the mask withholds reading, and group and others have nothing; malformed ones are errors |
| AclCodec.RepairChangesTwoEntries | packaging/cpa-broker-acl.py:42-44 | a repair leaves the Broker's entry with reading alone, adds reading to the mask, and keeps every other entry and their order |
| AclCodec.RepairUnmasksExactlyRead | packaging/cpa-broker-acl.py:27-44 | after a repair the Broker has exactly read, which it lacked, and nobody else's access changes (section 23.1.5 of the withdrawn POSIX 1003.1e draft 17) |
| AclCodec.SecondRepairDoesNothing | packaging/cpa-broker-acl.py:34-39 | a repaired ACL is not repaired again |
| AclCodec.SomethingToRepair | packaging/cpa-broker-acl.py:27-44 | an attribute that the repair changes |
| AclFiles.ScanMeaning | packaging/cpa-broker-acl.py:77-112 | the records name distinct, regular, singly linked files with their ACL before and after |
| AclFiles.ScanIsComplete | packaging/cpa-broker-acl.py:77-112 | a name has a record exactly when it is listed and its file is repairable |
| AclFiles.CandidateMeaning | packaging/cpa-broker-acl.py:77-107 | a file is repaired, or an error, exactly by its name, kind, links, owner and ACL |
| AclFiles.ScanFailsExactlyWhen | packaging/cpa-broker-acl.py:77-107 | a scan fails exactly when some listed file has a malformed ACL |
| AclFiles.AclHost.FindCandidates | packaging/cpa-broker-acl.py:77-112 | the loop computes the scan, or stops at a malformed ACL |
| AclFiles.AclHost.WriteUpdates | packaging/cpa-broker-acl.py:116-122 | the loop computes the first rounds of the repair, up to the first file changed by others or the interruption, and reports which |
| AclFiles.WritesAt | packaging/cpa-broker-acl.py:116-122 | a recorded file has its repaired ACL, or what others set after that, exactly if its round was reached with the file as recorded; otherwise what others set, or what it had |
| AclFiles.WrittenMeaning | packaging/cpa-broker-acl.py:116-122 | the loop ends at the first record whose file is not as recorded when its turn comes |
| AclFiles.UndisturbedExactlyWhen | packaging/cpa-broker-acl.py:116-122 | the loop reports success exactly when it wrote every record, or as many as it lived for |
| AclFiles.UndisturbedRepairWritesAll | packaging/cpa-broker-acl.py:116-122 | a repair that nobody disturbs and nothing interrupts writes every recorded file |
| AclFiles.AclHost.Rollback | packaging/cpa-broker-acl.py:133-169 | the loop computes the rollback, and succeeds exactly when no record aborts it |
| AclFiles.InspectMeaning | packaging/cpa-broker-acl.py:141-165 | a record aborts the rollback exactly if its name is not one the repair records or is now a symbolic link, or its file, in place, has lost its ACL; and its file is restored exactly if it is in place with the repair's own result |
| AclFiles.RolledBackAt | packaging/cpa-broker-acl.py:133-169 | before the record that aborts it, a rollback restores exactly the files that carry the repair's own result; from there on, and without a record, files are exactly as they were |
| AclFiles.UntouchedIsRestoredExactlyWhen | packaging/cpa-broker-acl.py:70-169 | after repair and rollback, each interrupted or not, a recorded file that others left alone has its old ACL exactly when it was never written or no record up to it aborted; otherwise the repaired one |
| AclFiles.ForeignEditIsKept | packaging/cpa-broker-acl.py:117-119 | what others last set on a recorded file during the repair or after it is kept, unless it is one of the two recorded ACLs |
| AclFiles.UnrecordedIsLeftAlone | packaging/cpa-broker-acl.py:70-169 | a file without a record has what others set last, or what it had |
| AclFiles.AbortLeavesLaterFilesRepaired | packaging/cpa-broker-acl.py:144-152 | two repaired files, the first name a symbolic link by then: the rollback aborts and the second stays repaired |
| AclFiles.RepairThenRollback | packaging/cpa-broker-acl.py:70-169 | scan, repair, interruption, foreign edits before every write and in between, rollback: every repairable file is recorded, the rollback succeeds exactly when no record aborts it, and an untouched file is restored exactly when it was never written or comes before the first abort |
| CanvasNoise.KeyIsInjective | extension/cloak-companion/spoof.js:432-435 | no two labels and sizes share a cache key |
| CanvasNoise.DerivePlan | extension/cloak-companion/spoof.js:436-446 | the loop derives the eight points of the label and size |
| CanvasNoise.PointPlans.PointPlan | extension/cloak-companion/spoof.js:431-450 | the cache of at most 65 entries always returns what fresh derivation would |
| CanvasNoise.PlanIsInside | extension/cloak-companion/spoof.js:380-386 | every derived point lies inside a non-empty canvas |
| CanvasNoise.NoisedShowsNoise | extension/cloak-companion/spoof.js:470-478 | at a touched place every colour has all that the points of the place add to it, modulo 256, and full opacity; every other place is as it was |
| CanvasNoise.Canvas.Restore | extension/cloak-companion/spoof.js:451-457 | the saved pixels are put back last one first, passing over those for which that throws |
| CanvasNoise.RestoringHealsExactlyWhen | extension/cloak-companion/spoof.js:451-457 | restoring gives back the whole picture exactly when, at every touched place, putting back the pixel saved there first succeeded, repeated points and a last pixel saved but not overwritten included |
| CanvasNoise.Canvas.ApplyNoise | extension/cloak-companion/spoof.js:458-484 | all points are perturbed, or a native call threw and what can be put back has been |
| CanvasNoise.Canvas.PerturbCanvas | extension/cloak-companion/spoof.js:485-492 | the noisy picture is shown, and the canvas is left as it was exactly when the pixel saved first at every touched place could be put back |
| CanvasNoise.EncodePicture | extension/cloak-companion/spoof.js:458-492 | the same through the cache, and for an empty canvas; without a mishap the picture shown is the old one with the noise of a fresh derivation at its eight points |
| CanvasNoise.StuckPixelStays | extension/cloak-companion/spoof.js:454-456 | a pixel whose restoration throws stays perturbed |
| CanvasNoise.OrderOfRestoringMatters | extension/cloak-companion/spoof.js:454-456 | restoring first to last would leave a repeated point changed |
| BulkMutation.Backend.RunAtomicBulkMutation | cloak-picker/src/App.tsx:2567-2625 | every target is updated; or each earlier target shows its old shown value, or what its own failed rollback left, the failing one has what its call left, and no other account changes |
| BulkMutation.AllAssigned | cloak-picker/src/App.tsx:2588-2592 | a change that is done gave every target the value and left every other account alone |
| BulkMutation.Backend.RollBack | cloak-picker/src/App.tsx:2599-2602 | every account shows its old shown value, or what its failed rollback left, partial effect included; no other changes, and completeness is reported exactly |
| BulkMutation.BulkIsAllOrNothingExactlyWhen | cloak-picker/src/App.tsx:2592-2615 | a rolled-back bulk change leaves every account as it was exactly when shown values were true and the failing call had no effect |
| BulkMutation.BulkChangeThatIsNotUndone | cloak-picker/src/App.tsx:2592-2615 | a change over an outdated value and one whose failing call had an effect, neither of which is undone |
| BulkMutation.Backend.ClearAll | cloak-picker/src/App.tsx:2898-2903 | every target is cleared, or the attempted ones include the failing one |
| BulkMutation.OnlyConfirmedMembers | cloak-picker/src/App.tsx:6794-6801 | every account about to be changed was on the confirmed list, unchanged |
| BulkMutation.SameTagMembersExactlyWhen | cloak-picker/src/App.tsx:6794-6801 | where each list names a profile once, the scope is the confirmed one exactly when both name the same members |
| BulkMutation.OthersKeepTheirOrder | cloak-picker/src/App.tsx:2905-2905 | removing the tag keeps all other presets in their order |
| BulkMutation.ConfirmDeleteTag | cloak-picker/src/App.tsx:2873-2930 | rolled back exactly when the scope is the confirmed one, the deletion did not go through, and every attempted rollback and that of the presets succeeded, and then nothing has changed, even if the failing call took partial effect; after a failed rollback exactly the accounts whose own rollback failed have what that left; no unconfirmed account is reached |
| AccountOrder.MergedAccountOrder | cloak-picker/src/App.tsx:6414-6428 | the loops compute the duplicate-free merge of saved order and screen |
| AccountOrder.OrderedAccountNames | cloak-picker/src/App.tsx:6431-6446 | the loops compute the order to render |
| AccountOrder.MergedFollowsTheSavedOrder | cloak-picker/src/App.tsx:6414-6428 | every saved and every visible name once; of two, the one that comes first in the saved order, and after it on screen, comes first |
| AccountOrder.RenderedFollowsTheSavedOrder | cloak-picker/src/App.tsx:6431-6446 | the same on screen, for the names of the view |
| AccountOrder.ReorderAccountNames | cloak-picker/src/App.tsx:6448-6461 | the splice computes the moved order |
| AccountOrder.ReorderMovesOnlyTheSource | cloak-picker/src/App.tsx:6448-6461 | the result has no duplicates, is the merged order apart from the source, and puts the source directly beside the target on the asked side; otherwise nothing changes |
| AccountOrder.OtherViewsKeepTheirOrder | cloak-picker/src/App.tsx:6409-6413 | every selection of names without the source, the other view's included, reads the same before and after |
| AccountOrder.RenderingIsARearrangement | cloak-picker/src/App.tsx:6431-6446 | the rendered names are a permutation of the view's |
| AccountOrder.MovedAccountsAreAdjacentOnScreen | cloak-picker/src/App.tsx:6396-6461 | after a move the two accounts are adjacent on screen, whatever lies between them in the saved order |
| AccountOrder.EveryAccountIsShownOnce | cloak-picker/src/App.tsx:6396-6401 | every account of the view is shown once, under its own name |

## Left out

- Changes to the consumer directory while it is being scanned, and between a check and the rename or write right after it.
- Interleaved calls of the store class itself: its methods run from start to end or to a crash; the interleavings are those of their plans.
- The scheduler's thread, the four workers and the HTTP routes: any order of calls is covered, their parsing is not (`route`, `constant_eq`).
- Unreadable, corrupt or oversized grant and journal files: a load that fails ends a call before its first step.
- Reads without effect on state: `list`, `metadata`, `access_credential`, `export_credential`, `quota_snapshot`, `status_at`.
- TLS, sockets, AES-GCM, SHA-256, JWT and JSON text: only their outcome classes and the fields read.
- Overflow of 64-bit counters and times.
- White space around an email: the file-name filter drops it before the trim could matter.
- `broker_client.rs` matching of rows and import candidates: single loops over lists, no state of their own.
- The directory a login works in, `.pending-login`, which every login removes first; the client's own files there.
- `remove_account_auth`, `refresh_all_account_auth` and the due time of local refreshes.
- Progress reports, timeouts in seconds and the extra grace for reading a login's credential file.
- `WorkspaceCancellationRegistry` and `AuthCancellationRegistry`: the same pattern with a single slot.
- Poisoned locks, and the polling and deadline of `wait_for_launches_to_stop`: only the condition it waits for.
- Rounding of scale factors to double precision.
- Files that appear or vanish while the ACL scan runs; snapshot files of the ACL helper on disk.
- `eastMinutes`, the navigator and Intl masking, and the wrappers of `toDataURL`, `toBlob` and `getImageData`.
- Canvas pixels outside the 8-bit channels (colour spaces, premultiplied alpha).
- UTF-16 surrogate pairs in canvas labels: a label is hashed by its code units as given.
- Local storage behind the tag presets: a write succeeds or fails as a whole.
- Rendering, dialogs, drag geometry and the mock backend of the picker.
- `orderAccountsForView`: sorting the trash by deletion time.
