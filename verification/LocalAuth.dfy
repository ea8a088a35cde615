/** The desktop's private OAuth directory for one account: its credential file, its
    policy, and the working directory of a refresh. Each operation is the list of durable
    moves it makes, in order; the process may stop after any of them. The directory a
    login works in is always swept first by the next login and is not modelled. */
module LocalAuth {
  import opened Basics

  datatype Failure =
    | Busy | LoginBusy | CallbackInUse | SeatInUse | SeatStale | LicenseInvalid | LicenseNetwork | Cancelled
    | Timeout | Service | Credentials | Reauth | Identity | Unchanged | Recovery | Browser | BrowserClosed
  {
    predicate Terminal() {
      Reauth? || Credentials? || Identity? || Recovery?
    }
  }

  datatype Authority = NoTrace | Codex | Cpa | Cockpit | Broker

  datatype Policy = Policy(
    authority: Authority, enabled: bool, lastRefreshAt: Option<nat>,
    nextRetryAt: Option<nat>, failures: nat, error: Option<Failure>)

  /** A readable credential file. */
  datatype Cred = Cred(access: string, refresh: string, expiresAt: nat, email: Option<string>, account: Option<string>)
  {
    /** Stands in for the digest of the two tokens. */
    function Digest(): (string, string) {
      (access, refresh)
    }
  }

  datatype CredFile = NoFile | Broken | Good(cred: Cred)

  datatype WorkDir = Absent | Dir(file: CredFile)

  datatype Move =
    | SavePolicy(policy: Policy)
    | Promote(cred: Cred)           // a refreshed credential becomes the credential file
    | InstallLogin(cred: Cred)      // a newly authorized credential becomes the credential file
    | MakeDir
    | CopyIn(cred: Cred)            // the current credential is copied into the working directory
    | Send(token: string)           // the refresh token is sent to the provider
    | Leave(file: CredFile)         // what the official client leaves in the working directory
    | EmptyDir
    | RemoveDir
    | HandOff(token: string)        // the refresh token is sent to the Broker

  datatype Home = Home(auth: CredFile, policy: Policy, work: WorkDir, log: seq<Move>)

  function Apply(h: Home, m: Move): Home {
    var h' := h.(log := h.log + [m]);
    match m
    case SavePolicy(p) => h'.(policy := p)
    case Promote(c) => h'.(auth := Good(c))
    case InstallLogin(c) => h'.(auth := Good(c))
    case MakeDir => h'.(work := Dir(NoFile))
    case CopyIn(c) => h'.(work := Dir(Good(c)))
    case Leave(file) => h'.(work := Dir(file))
    case EmptyDir => h'.(work := Dir(NoFile))
    case RemoveDir => h'.(work := Absent)
    case Send(_) => h'
    case HandOff(_) => h'
  }

  datatype Moves = Done | Do(move: Move, rest: Moves)

  /** The directory after the first `n` moves. */
  function Carry(h: Home, moves: Moves, n: nat): Home
    decreases moves
  {
    if moves.Done? || n == 0 then h else Carry(Apply(h, moves.move), moves.rest, n - 1)
  }

  function Length(moves: Moves): nat {
    if moves.Done? then 0 else 1 + Length(moves.rest)
  }

  // ----- Checks -----

  /** The new credential is of the account: a known email and account id are kept. */
  predicate KeepsIdentity(name: string, previous: Option<Cred>, next: Cred) {
    var expected := if previous.Some? && previous.value.email.Some? then previous.value.email
                    else if '@' in name then Some(name) else None;
    && (expected.Some? ==> next.email.Some? && SameIgnoringCase(next.email.value, expected.value))
    && (previous.Some? && previous.value.account.Some? ==> next.account == previous.value.account)
  }

  function Readable(file: CredFile): Option<Cred> {
    if file.Good? then Some(file.cred) else None
  }

  // ----- Policy -----

  function RetryDelay(failures: nat): nat {
    if failures == 1 then 15 * 60 else if failures == 2 then 60 * 60 else 6 * 60 * 60
  }

  const MAX_FAILURES: nat := 0xffff_ffff

  function FailedPolicy(p: Policy, failure: Failure, now: nat): (r: Policy)
    ensures r.authority == p.authority && r.enabled == p.enabled && r.lastRefreshAt == p.lastRefreshAt
    ensures r.error == Some(failure) && p.failures <= r.failures
    ensures failure.Terminal() <==> r.nextRetryAt.None?
    ensures r.nextRetryAt.Some? ==> now + 15 * 60 <= r.nextRetryAt.value <= now + 6 * 60 * 60
  {
    var failures := if p.failures < MAX_FAILURES then p.failures + 1 else p.failures;
    p.(failures := failures, error := Some(failure),
       nextRetryAt := if failure.Terminal() then None else Some(now + RetryDelay(failures)))
  }

  /** A busy or cancelled operation is not counted as a failure. */
  function RecordFailure(p: Policy, failure: Failure, now: nat, rest: Moves): Moves {
    if failure.Busy? || failure.Cancelled? then rest else Do(SavePolicy(FailedPolicy(p, failure, now)), rest)
  }

  function SuccessPolicy(p: Policy, enable: bool, now: nat): Policy {
    p.(enabled := enable || p.enabled, lastRefreshAt := Some(now), error := None, failures := 0, nextRetryAt := None)
  }

  function Sweep(rest: Moves): Moves {
    Do(EmptyDir, Do(RemoveDir, rest))
  }

  // ----- Refresh -----

  /** What the official client did in the working directory. */
  datatype Session = Session(sent: bool, left: CredFile, failure: Option<Failure>)

  function Adopt(p: Policy, c: Cred, now: nat): Moves {
    Do(Promote(c), Do(SavePolicy(SuccessPolicy(p, false, now)), Sweep(Done)))
  }

  function Conclude(name: string, p: Policy, previous: Cred, s: Session, now: nat): Moves {
    if s.left.Good? && s.left.cred.Digest() != previous.Digest() && now + 60 < s.left.cred.expiresAt then
      if KeepsIdentity(name, Some(previous), s.left.cred) then Adopt(p, s.left.cred, now)
      else RecordFailure(p, Identity, now, Done)
    else
      var failure := if s.failure.Some? then s.failure.value else Unchanged;
      if s.left.Good? && s.left.cred.Digest() == previous.Digest()
      then Sweep(RecordFailure(p, failure, now, Done))
      else RecordFailure(p, Recovery, now, Done)
  }

  function RunSession(name: string, p: Policy, previous: Cred, s: Session, now: nat): Moves {
    var tail := Do(Leave(s.left), Conclude(name, p, previous, s, now));
    if s.sent then Do(Send(previous.refresh), tail) else tail
  }

  function StartSession(name: string, p: Policy, previous: Cred, s: Session, now: nat): Moves {
    if p.error.Some? && p.error.value.Terminal() then Done
    else Do(MakeDir, Do(CopyIn(previous), RunSession(name, p, previous, s, now)))
  }

  function RefreshMoves(h: Home, name: string, s: Session, now: nat): Moves {
    var p := h.policy;
    if !p.authority.NoTrace? || h.auth.NoFile? then Done
    else if h.auth.Broken? then RecordFailure(p, Credentials, now, Done)
    else
      var previous := h.auth.cred;
      if h.work.Absent? then StartSession(name, p, previous, s, now)
      else if !h.work.file.Good? then RecordFailure(p, Recovery, now, Done)
      else
        var candidate := h.work.file.cred;
        if candidate.Digest() != previous.Digest() && now < candidate.expiresAt
           && KeepsIdentity(name, Some(previous), candidate)
        then Adopt(p, candidate, now)
        else if candidate.Digest() == previous.Digest()
        then Sweep(StartSession(name, p, previous, s, now))
        else RecordFailure(p, Recovery, now, Done)
  }

  // ----- Login -----

  /** The credential a login obtained, if it got that far. */
  function LoginMoves(h: Home, name: string, obtained: Option<Cred>, now: nat): Moves {
    if obtained.None? || !KeepsIdentity(name, Readable(h.auth), obtained.value) || obtained.value.expiresAt <= now then Done
    else
      var local := h.policy.(authority := NoTrace);
      Do(InstallLogin(obtained.value), Do(SavePolicy(local), Do(SavePolicy(SuccessPolicy(local, true, now)),
        if h.work.Dir? then Sweep(Done) else Done)))
  }

  // ----- Ownership -----

  function HandOffMoves(h: Home): Moves {
    if !h.auth.Good? || !(h.policy.authority.NoTrace? || h.policy.authority.Broker?) then Done
    else Do(SavePolicy(h.policy.(authority := Broker, enabled := false)), Do(HandOff(h.auth.cred.refresh), Done))
  }

  /** Handing the Broker a credential from a file, be it the local one or another: local
      refresh is frozen first, and the record is cleared once the Broker has accepted. */
  function ImportMoves(h: Home, token: string, accepted: bool): Moves {
    if !(h.policy.authority.NoTrace? || h.policy.authority.Broker?) then Done
    else
      var p := h.policy.(authority := Broker, enabled := false);
      var cleared := p.(nextRetryAt := None, error := None, failures := 0);
      Do(SavePolicy(p), Do(HandOff(token), if accepted then Do(SavePolicy(cleared), Done) else Done))
  }

  function AuthorityMoves(h: Home, authority: Authority): Moves {
    if !h.auth.Good? || (h.policy.authority.Broker? && !authority.Broker?) then Done
    else Do(SavePolicy(h.policy.(authority := authority, enabled := authority.NoTrace?,
                                 nextRetryAt := None, error := None, failures := 0)), Done)
  }

  function AutoRefreshMoves(h: Home, enabled: bool): Moves {
    if enabled && !h.policy.authority.NoTrace? then Done
    else Do(SavePolicy(h.policy.(enabled := enabled)), Done)
  }
}
