/** The desktop operations on the account's directory, updated in place. `power` is how
    many more durable moves the process will live to make. */
module LocalHomes {
  import opened Basics
  import opened LocalAuth

  function Left(moves: Moves, n: nat): nat
    decreases moves
  {
    if moves.Done? then n else if n == 0 then 0 else Left(moves.rest, n - 1)
  }

  class LocalHome {
    const name: string
    var auth: CredFile
    var policy: Policy
    var work: WorkDir
    var power: nat
    ghost var log: seq<Move>

    constructor (name: string, auth: CredFile, policy: Policy, work: WorkDir, power: nat)
      ensures this.name == name && this.power == power && Contents() == Home(auth, policy, work, [])
    {
      this.name, this.auth, this.policy, this.work, this.power, this.log := name, auth, policy, work, power, [];
    }

    ghost function Contents(): Home
      reads this
    {
      Home(auth, policy, work, log)
    }

    /** The directory went through exactly these moves, as far as the process lived. */
    twostate predicate Made(moves: Moves)
      reads this
    {
      Contents() == Carry(old(Contents()), moves, old(power)) && power == Left(moves, old(power))
    }

    /** One durable move, the next of `todo`. */
    method Durable(m: Move, ghost todo: Moves) returns (ok: bool)
      requires todo.Do? && todo.move == m
      modifies this
      ensures ok == (0 < old(power))
      ensures Contents() == if ok then Apply(old(Contents()), m) else old(Contents())
      ensures Carry(old(Contents()), todo, old(power)) == Carry(Contents(), todo.rest, power)
      ensures Left(todo, old(power)) == Left(todo.rest, power)
      ensures !ok ==> power == 0
    {
      ok := 0 < power;
      if ok {
        power := power - 1;
        log := log + [m];
        match m {
          case SavePolicy(p) => policy := p;
          case Promote(c) => auth := Good(c);
          case InstallLogin(c) => auth := Good(c);
          case MakeDir => work := Dir(NoFile);
          case CopyIn(c) => work := Dir(Good(c));
          case Leave(file) => work := Dir(file);
          case EmptyDir => work := Dir(NoFile);
          case RemoveDir => work := Absent;
          case Send(_) =>
          case HandOff(_) =>
        }
      }
    }

    /** Count a failure against the policy. */
    method Fail(failure: Failure, now: nat, ghost todo: Moves, ghost rest: Moves) returns (ok: bool)
      requires todo == RecordFailure(policy, failure, now, rest)
      modifies this
      ensures Carry(old(Contents()), todo, old(power)) == Carry(Contents(), rest, power)
      ensures Left(todo, old(power)) == Left(rest, power)
      ensures !ok ==> power == 0
    {
      ok := true;
      if !(failure.Busy? || failure.Cancelled?) {
        ok := Durable(SavePolicy(FailedPolicy(policy, failure, now)), todo);
      }
    }

    method SweepWork(ghost todo: Moves) returns (ok: bool)
      requires todo.Do? && todo.rest.Do? && todo == Sweep(todo.rest.rest)
      modifies this
      ensures Carry(old(Contents()), todo, old(power)) == Carry(Contents(), todo.rest.rest, power)
      ensures Left(todo, old(power)) == Left(todo.rest.rest, power)
      ensures policy == old(policy) && auth == old(auth)
      ensures !ok ==> power == 0
    {
      ok := Durable(EmptyDir, todo);
      if ok {
        ok := Durable(RemoveDir, todo.rest);
      }
    }

    method AdoptCandidate(c: Cred, now: nat, ghost todo: Moves)
      requires todo == Adopt(policy, c, now)
      modifies this
      ensures Made(todo)
    {
      var ok := Durable(Promote(c), todo);
      if !ok { return; }
      ok := Durable(SavePolicy(SuccessPolicy(policy, false, now)), todo.rest);
      if !ok { return; }
      ok := SweepWork(todo.rest.rest);
    }

    method Refresh(s: Session, now: nat)
      modifies this
      ensures Made(RefreshMoves(old(Contents()), name, s, now))
    {
      if !policy.authority.NoTrace? || auth.NoFile? {
        return;
      }
      ghost var todo := RefreshMoves(Contents(), name, s, now);
      var ok;
      if auth.Broken? {
        ok := Fail(Credentials, now, todo, Done);
        return;
      }
      var previous := auth.cred;
      if work.Dir? {
        if !work.file.Good? {
          ok := Fail(Recovery, now, todo, Done);
          return;
        }
        var candidate := work.file.cred;
        if candidate.Digest() != previous.Digest() && now < candidate.expiresAt
           && KeepsIdentity(name, Some(previous), candidate) {
          AdoptCandidate(candidate, now, todo);
          return;
        }
        if candidate.Digest() != previous.Digest() {
          ok := Fail(Recovery, now, todo, Done);
          return;
        }
        ok := SweepWork(todo);
        if !ok { return; }
        todo := todo.rest.rest;
      }
      RunSession(previous, s, now, todo);
    }

    /** Let the official client refresh a copy of the credential. */
    method RunSession(previous: Cred, s: Session, now: nat, ghost moves: Moves)
      requires moves == StartSession(name, policy, previous, s, now)
      modifies this
      ensures Made(moves)
    {
      if policy.error.Some? && policy.error.value.Terminal() {
        return;
      }
      ghost var todo := moves;
      var ok := Durable(MakeDir, todo);
      if !ok { return; }
      ok := Durable(CopyIn(previous), todo.rest);
      if !ok { return; }
      todo := todo.rest.rest;
      if s.sent {
        ok := Durable(Send(previous.refresh), todo);
        if !ok { return; }
        todo := todo.rest;
      }
      ok := Durable(Leave(s.left), todo);
      if !ok { return; }
      todo := todo.rest;
      FinishSession(previous, s, now, todo);
    }

    /** Adopt what the session left, or put the failure on record. */
    method FinishSession(previous: Cred, s: Session, now: nat, ghost todo: Moves)
      requires todo == Conclude(name, policy, previous, s, now)
      modifies this
      ensures Made(todo)
    {
      var ok;
      if s.left.Good? && s.left.cred.Digest() != previous.Digest() && now + 60 < s.left.cred.expiresAt {
        if !KeepsIdentity(name, Some(previous), s.left.cred) {
          ok := Fail(Identity, now, todo, Done);
          return;
        }
        AdoptCandidate(s.left.cred, now, todo);
        return;
      }
      var failure := if s.failure.Some? then s.failure.value else Unchanged;
      if s.left.Good? && s.left.cred.Digest() == previous.Digest() {
        ok := SweepWork(todo);
        if !ok { return; }
        ok := Fail(failure, now, todo.rest.rest, Done);
      } else {
        ok := Fail(Recovery, now, todo, Done);
      }
    }

    method Login(obtained: Option<Cred>, now: nat)
      modifies this
      ensures Made(LoginMoves(old(Contents()), name, obtained, now))
    {
      if obtained.None? || !KeepsIdentity(name, Readable(auth), obtained.value) || obtained.value.expiresAt <= now {
        return;
      }
      ghost var todo := LoginMoves(Contents(), name, obtained, now);
      var ok := Durable(InstallLogin(obtained.value), todo);
      if !ok { return; }
      ok := Durable(SavePolicy(policy.(authority := NoTrace)), todo.rest);
      if !ok { return; }
      ok := Durable(SavePolicy(SuccessPolicy(policy, true, now)), todo.rest.rest);
      if !ok { return; }
      if work.Dir? {
        ok := SweepWork(todo.rest.rest.rest);
      }
    }

    method GiveToBroker()
      modifies this
      ensures Made(HandOffMoves(old(Contents())))
    {
      if !auth.Good? || !(policy.authority.NoTrace? || policy.authority.Broker?) {
        return;
      }
      ghost var todo := HandOffMoves(Contents());
      var ok := Durable(SavePolicy(policy.(authority := Broker, enabled := false)), todo);
      if !ok { return; }
      ok := Durable(HandOff(auth.cred.refresh), todo.rest);
    }

    method ImportToBroker(token: string, accepted: bool)
      modifies this
      ensures Made(ImportMoves(old(Contents()), token, accepted))
    {
      if !(policy.authority.NoTrace? || policy.authority.Broker?) {
        return;
      }
      ghost var todo := ImportMoves(Contents(), token, accepted);
      var ok := Durable(SavePolicy(policy.(authority := Broker, enabled := false)), todo);
      if !ok { return; }
      ok := Durable(HandOff(token), todo.rest);
      if !ok { return; }
      if accepted {
        ok := Durable(SavePolicy(policy.(nextRetryAt := None, error := None, failures := 0)), todo.rest.rest);
      }
    }

    method SetAuthority(authority: Authority)
      modifies this
      ensures Made(AuthorityMoves(old(Contents()), authority))
    {
      if !auth.Good? || (policy.authority.Broker? && !authority.Broker?) {
        return;
      }
      var p := policy.(authority := authority, enabled := authority.NoTrace?,
                       nextRetryAt := None, error := None, failures := 0);
      var ok := Durable(SavePolicy(p), AuthorityMoves(Contents(), authority));
    }

    method SetAutoRefresh(enabled: bool)
      modifies this
      ensures Made(AutoRefreshMoves(old(Contents()), enabled))
    {
      if enabled && !policy.authority.NoTrace? {
        return;
      }
      var ok := Durable(SavePolicy(policy.(enabled := enabled)), AutoRefreshMoves(Contents(), enabled));
    }
  }
}
