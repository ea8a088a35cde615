/** What a completed desktop operation comes to, told from the directory it starts from and
    from what the provider's client left. */
module LocalOutcomes {
  import opened Basics
  import opened LocalAuth
  import opened HandoverSafety
  import opened LocalRotation

  /** Both credentials are of one account, as far as the old one, or the account's own name,
      tells: the email up to case, and the account id. */
  predicate OneAccount(name: string, known: Option<Cred>, next: Cred) {
    && (known.Some? && known.value.email.Some? ==>
          next.email.Some? && SameIgnoringCase(next.email.value, known.value.email.value))
    && ((known.None? || known.value.email.None?) && '@' in name ==>
          next.email.Some? && SameIgnoringCase(next.email.value, name))
    && (known.Some? && known.value.account.Some? ==> next.account.Some? && next.account.value == known.value.account.value)
  }

  predicate SameTokens(a: Cred, b: Cred) {
    a.access == b.access && a.refresh == b.refresh
  }

  /** A failure after which only the user can help. */
  predicate Final(failure: Failure) {
    failure == Reauth || failure == Credentials || failure == Identity || failure == Recovery
  }

  /** Success on record: no error, no failures, no retry time, refreshed now, and authority and
      switch as they were. */
  predicate RecordsSuccess(before: Policy, after: Policy, now: nat) {
    && after.error.None? && after.failures == 0 && after.nextRetryAt.None? && after.lastRefreshAt == Some(now)
    && after.authority == before.authority && after.enabled == before.enabled
  }

  /** A failure on record: counted, with the wait that follows it unless it is final, and
      nothing else changed. A busy or cancelled operation is not recorded. */
  predicate RecordsFailure(before: Policy, after: Policy, failure: Failure, now: nat) {
    if failure == Busy || failure == Cancelled then after == before
    else
      && after.error == Some(failure)
      && after.failures == (if before.failures < 0xffff_ffff then before.failures + 1 else before.failures)
      && after.nextRetryAt == (if Final(failure) then None
                               else if after.failures == 1 then Some(now + 900)
                               else if after.failures == 2 then Some(now + 3600)
                               else Some(now + 21600))
      && after.authority == before.authority && after.enabled == before.enabled
      && after.lastRefreshAt == before.lastRefreshAt
  }

  /** The credential has become the credential file, success is on record, and the working
      directory is gone. */
  predicate Adopted(before: Home, after: Home, c: Cred, now: nat) {
    after.auth == Good(c) && RecordsSuccess(before.policy, after.policy, now) && after.work == Absent
  }

  /** The credential file is as before and the failure is on record. */
  predicate Refused(before: Home, after: Home, failure: Failure, now: nat) {
    after.auth == before.auth && RecordsFailure(before.policy, after.policy, failure, now)
  }

  lemma {:induction false} CompleteWithEnough(h: Home, moves: Moves, n: nat)
    requires Length(moves) <= n
    ensures Carry(h, moves, n) == Complete(h, moves)
    decreases moves
  {
    if moves.Do? {
      CompleteWithEnough(Apply(h, moves.move), moves.rest, n - 1);
    }
  }

  /** The directory once the working directory has been swept away. */
  function Swept(h: Home): (r: Home)
    ensures r.auth == h.auth && r.policy == h.policy && r.work == Absent
  {
    h.(work := Absent, log := h.log + [EmptyDir] + [RemoveDir])
  }

  lemma SweepLeaves(h: Home, rest: Moves)
    ensures Complete(h, Sweep(rest)) == Complete(Swept(h), rest)
    ensures Length(Sweep(rest)) == 2 + Length(rest)
  {
    CompleteStep(h, EmptyDir, Do(RemoveDir, rest));
    CompleteStep(Apply(h, EmptyDir), RemoveDir, rest);
    assert Length(Do(RemoveDir, rest)) == 1 + Length(rest);
  }

  lemma FailureIsRecorded(p: Policy, failure: Failure, now: nat)
    requires failure != Busy && failure != Cancelled
    ensures RecordsFailure(p, FailedPolicy(p, failure, now), failure, now)
  {
  }

  lemma RecordLeaves(h: Home, failure: Failure, now: nat)
    ensures var h' := Complete(h, RecordFailure(h.policy, failure, now, Done));
            Refused(h, h', failure, now) && h'.work == h.work
    ensures Length(RecordFailure(h.policy, failure, now, Done)) <= 1
  {
    if !(failure.Busy? || failure.Cancelled?) {
      var p := FailedPolicy(h.policy, failure, now);
      FailureIsRecorded(h.policy, failure, now);
      assert Complete(h, Do(SavePolicy(p), Done)) == h.(policy := p, log := h.log + [SavePolicy(p)]) by {
        CompleteStep(h, SavePolicy(p), Done);
      }
      assert Length(Do(SavePolicy(p), Done)) == 1;
    }
  }

  lemma SuccessIsRecorded(p: Policy, now: nat)
    ensures RecordsSuccess(p, SuccessPolicy(p, false, now), now)
  {
  }

  lemma AdoptLeaves(h: Home, c: Cred, now: nat)
    ensures Adopted(h, Complete(h, Adopt(h.policy, c, now)), c, now)
    ensures Length(Adopt(h.policy, c, now)) == 4
  {
    var p := SuccessPolicy(h.policy, false, now);
    SuccessIsRecorded(h.policy, now);
    var save, sweep := SavePolicy(p), Sweep(Done);
    var h1 := Apply(h, Promote(c));
    CompleteStep(h, Promote(c), Do(save, sweep));
    CompleteStep(h1, save, sweep);
    var h2 := Apply(h1, save);
    SweepLeaves(h2, Done);
    assert h2.auth == Good(c) && h2.policy == p;
    assert Complete(Swept(h2), Done) == Swept(h2);
    assert Length(Do(save, sweep)) == 3;
  }

  /** A credential that a session left is worth adopting: other tokens, and more than a minute
      of life. */
  predicate Renews(previous: Cred, left: CredFile, now: nat) {
    left.Good? && !SameTokens(left.cred, previous) && now + 60 < left.cred.expiresAt
  }

  /** What a session that left `left` comes to. */
  predicate Concluded(name: string, before: Home, after: Home, previous: Cred, s: Session, now: nat) {
    if Renews(previous, s.left, now) then
      if OneAccount(name, Some(previous), s.left.cred) then Adopted(before, after, s.left.cred, now)
      else Refused(before, after, Identity, now) && after.work == Dir(s.left)
    else if s.left.Good? && SameTokens(s.left.cred, previous) then
      Refused(before, after, if s.failure.Some? then s.failure.value else Unchanged, now) && after.work == Absent
    else
      Refused(before, after, Recovery, now) && after.work == Dir(s.left)
  }

  lemma SweptAndRecorded(h: Home, failure: Failure, now: nat)
    ensures var moves := Sweep(RecordFailure(h.policy, failure, now, Done));
            Refused(h, Complete(h, moves), failure, now) && Complete(h, moves).work == Absent && Length(moves) <= 3
  {
    var record := RecordFailure(h.policy, failure, now, Done);
    SweepLeaves(h, record);
    RecordLeaves(Swept(h), failure, now);
  }

  lemma ConcludeLeaves(name: string, h: Home, previous: Cred, s: Session, now: nat)
    requires h.work == Dir(s.left)
    ensures Concluded(name, h, Complete(h, Conclude(name, h.policy, previous, s, now)), previous, s, now)
    ensures Length(Conclude(name, h.policy, previous, s, now)) <= 4
  {
    if Renews(previous, s.left, now) && OneAccount(name, Some(previous), s.left.cred) {
      AdoptLeaves(h, s.left.cred, now);
    } else if Renews(previous, s.left, now) {
      RecordLeaves(h, Identity, now);
    } else if s.left.Good? && SameTokens(s.left.cred, previous) {
      SweptAndRecorded(h, if s.failure.Some? then s.failure.value else Unchanged, now);
    } else {
      RecordLeaves(h, Recovery, now);
    }
  }

  lemma SessionLeaves(name: string, h: Home, previous: Cred, s: Session, now: nat)
    requires h.auth == Good(previous)
    ensures var h' := Complete(h, StartSession(name, h.policy, previous, s, now));
            if h.policy.error.Some? && Final(h.policy.error.value) then h' == h
            else Concluded(name, h, h', previous, s, now)
    ensures Length(StartSession(name, h.policy, previous, s, now)) <= 8
  {
    var moves := StartSession(name, h.policy, previous, s, now);
    if moves.Do? {
      var end := Conclude(name, h.policy, previous, s, now);
      var h2 := Apply(Apply(h, MakeDir), CopyIn(previous));
      var h3 := if s.sent then Apply(h2, Send(previous.refresh)) else h2;
      var h4 := Apply(h3, Leave(s.left));
      var tail := Do(Leave(s.left), end);
      CompleteStep(h3, Leave(s.left), end);
      CompleteStep(h2, Send(previous.refresh), tail);
      var run := RunSession(name, h.policy, previous, s, now);
      CompleteStep(Apply(h, MakeDir), CopyIn(previous), run);
      CompleteStep(h, MakeDir, Do(CopyIn(previous), run));
      ConcludeLeaves(name, h4, previous, s, now);
      assert Length(tail) <= 5 && Length(run) <= 6 && Length(Do(CopyIn(previous), run)) <= 7;
    }
  }

  /** A completed refresh under NoTrace's authority, from a readable credential file and with no
      working directory: nothing happens after a final failure; otherwise the session's
      credential is adopted, with success on record, exactly when it has other tokens, lives
      for more than a minute, and is of the account. A credential of another account is an
      identity failure and is kept aside; the same tokens again leave the session's own
      failure on record; and anything else means recovery. */
  lemma CompletedRefresh(h: Home, name: string, s: Session, now: nat, n: nat)
    requires h.policy.authority == NoTrace && h.auth.Good? && h.work == Absent && 8 <= n
    ensures var h' := Step(h, name, Event(Refresh(s, now), n));
            if h.policy.error.Some? && Final(h.policy.error.value) then h' == h
            else Concluded(name, h, h', h.auth.cred, s, now)
  {
    SessionLeaves(name, h, h.auth.cred, s, now);
    CompleteWithEnough(h, RefreshMoves(h, name, s, now), n);
  }

  /** The success condition of a refresh, by itself: the credential file changes exactly when the
      session brought a new credential of the account, and then success is on record. */
  lemma RefreshSucceedsExactlyWhen(h: Home, name: string, s: Session, now: nat, n: nat)
    requires h.policy.authority == NoTrace && h.auth.Good? && h.work == Absent && 8 <= n
    requires h.policy.error.Some? ==> !Final(h.policy.error.value)
    ensures var h' := Step(h, name, Event(Refresh(s, now), n));
            (h'.auth != h.auth && h'.auth == s.left && RecordsSuccess(h.policy, h'.policy, now) && h'.work == Absent) <==>
              && s.left.Good?
              && (s.left.cred.access != h.auth.cred.access || s.left.cred.refresh != h.auth.cred.refresh)
              && now + 60 < s.left.cred.expiresAt && OneAccount(name, Some(h.auth.cred), s.left.cred)
  {
    CompletedRefresh(h, name, s, now, n);
  }

  /** A completed refresh that finds a working directory left over: an unreadable one means
      recovery; a credential with other tokens is adopted, with success on record, exactly when
      it has not expired and is of the account, even after a final failure, and otherwise
      means recovery too; and one with the same tokens is swept away before a session like any
      other. */
  lemma LeftOverIsRecovered(h: Home, name: string, s: Session, now: nat, n: nat)
    requires h.policy.authority == NoTrace && h.auth.Good? && h.work.Dir? && 10 <= n
    ensures var h' := Step(h, name, Event(Refresh(s, now), n));
            if !h.work.file.Good? then Refused(h, h', Recovery, now) && h'.work == h.work
            else
              var c := h.work.file.cred;
              if SameTokens(c, h.auth.cred) then
                if h.policy.error.Some? && Final(h.policy.error.value)
                then h'.auth == h.auth && h'.policy == h.policy && h'.work == Absent
                else Concluded(name, h, h', h.auth.cred, s, now)
              else if now < c.expiresAt && OneAccount(name, Some(h.auth.cred), c) then Adopted(h, h', c, now)
              else Refused(h, h', Recovery, now) && h'.work == h.work
  {
    var moves := RefreshMoves(h, name, s, now);
    if !h.work.file.Good? {
      RecordLeaves(h, Recovery, now);
    } else {
      var c := h.work.file.cred;
      if SameTokens(c, h.auth.cred) {
        var session := StartSession(name, h.policy, h.auth.cred, s, now);
        SweepLeaves(h, session);
        SessionLeaves(name, Swept(h), h.auth.cred, s, now);
      } else if now < c.expiresAt && OneAccount(name, Some(h.auth.cred), c) {
        AdoptLeaves(h, c, now);
      } else {
        RecordLeaves(h, Recovery, now);
      }
    }
    CompleteWithEnough(h, moves, n);
  }

  /** Under another authority or without a credential file a refresh does nothing, and a
      credential file that cannot be read is put on record. */
  lemma RefreshWithoutCredential(h: Home, name: string, s: Session, now: nat, n: nat)
    requires (h.policy.authority != NoTrace || !h.auth.Good?) && 1 <= n
    ensures var h' := Step(h, name, Event(Refresh(s, now), n));
            if h.policy.authority == NoTrace && h.auth == Broken
            then Refused(h, h', Credentials, now) && h'.work == h.work
            else h' == h
  {
    RecordLeaves(h, Credentials, now);
    CompleteWithEnough(h, RefreshMoves(h, name, s, now), n);
  }

  // ----- Login and ownership -----

  /** A completed login installs the credential it obtained exactly when that has not expired and
      is of the account: NoTrace is the authority again, automatic refresh is on, success is on
      record, and what an earlier refresh left is gone. Otherwise nothing changes. */
  lemma CompletedLogin(h: Home, name: string, obtained: Option<Cred>, now: nat, n: nat)
    requires 5 <= n
    ensures var h' := Step(h, name, Event(Login(obtained, now), n));
            var known := if h.auth.Good? then Some(h.auth.cred) else None;
            if obtained.Some? && now < obtained.value.expiresAt && OneAccount(name, known, obtained.value) then
              && h'.auth == Good(obtained.value) && h'.work == Absent
              && h'.policy == Policy(NoTrace, true, Some(now), None, 0, None)
            else h' == h
  {
    var moves := LoginMoves(h, name, obtained, now);
    if moves.Do? {
      var local := h.policy.(authority := NoTrace);
      var first, second := InstallLogin(obtained.value), SavePolicy(local);
      var third := SavePolicy(SuccessPolicy(local, true, now));
      var rest := if h.work.Dir? then Sweep(Done) else Done;
      var h1 := Apply(h, first);
      var h2 := Apply(h1, second);
      var h3 := Apply(h2, third);
      CompleteStep(h, first, Do(second, Do(third, rest)));
      CompleteStep(h1, second, Do(third, rest));
      CompleteStep(h2, third, rest);
      SweepLeaves(h3, Done);
      assert Length(Do(third, rest)) <= 3 && Length(Do(second, Do(third, rest))) <= 4;
    }
    CompleteWithEnough(h, moves, n);
  }

  predicate MayHandOver(p: Policy) {
    p.authority == NoTrace || p.authority == Broker
  }

  /** A completed hand-over sends the Broker the token of the readable credential file, with the
      Broker on record as the authority and automatic refresh off, or does nothing. */
  lemma CompletedHandOver(h: Home, name: string, n: nat)
    requires 2 <= n
    ensures var h' := Step(h, name, Event(GiveToBroker, n));
            if h.auth.Good? && MayHandOver(h.policy) then
              && h'.auth == h.auth && h'.work == h.work && h'.policy == h.policy.(authority := Broker, enabled := false)
              && h'.log == h.log + [SavePolicy(h'.policy), HandOff(h.auth.cred.refresh)]
            else h' == h
  {
    var moves := HandOffMoves(h);
    if moves.Do? {
      CompleteStep(h, moves.move, moves.rest);
      CompleteStep(Apply(h, moves.move), moves.rest.move, Done);
      assert Length(moves.rest) == 1;
    }
    CompleteWithEnough(h, moves, n);
  }

  /** The same with a credential from a file, and once the Broker has accepted it, with the
      record of earlier failures cleared. */
  lemma CompletedImport(h: Home, name: string, token: string, accepted: bool, n: nat)
    requires 3 <= n
    ensures var h' := Step(h, name, Event(ImportToBroker(token, accepted), n));
            if MayHandOver(h.policy) then
              && h'.auth == h.auth && h'.work == h.work
              && h'.policy == (var frozen := h.policy.(authority := Broker, enabled := false);
                               if accepted then frozen.(nextRetryAt := None, error := None, failures := 0) else frozen)
              && |h.log| + 1 < |h'.log| && h'.log[|h.log| + 1] == HandOff(token)
              && h'.log[|h.log|] == SavePolicy(h.policy.(authority := Broker, enabled := false))
            else h' == h
  {
    var moves := ImportMoves(h, token, accepted);
    if moves.Do? {
      var h1 := Apply(h, moves.move);
      var h2 := Apply(h1, moves.rest.move);
      CompleteStep(h, moves.move, moves.rest);
      CompleteStep(h1, moves.rest.move, moves.rest.rest);
      if accepted {
        CompleteStep(h2, moves.rest.rest.move, Done);
      }
      assert Length(moves.rest.rest) <= 1 && Length(moves.rest) <= 2;
    }
    CompleteWithEnough(h, moves, n);
  }

  /** The authority is set, with a clean record and automatic refresh on for NoTrace alone, if
      there is a readable credential and the Broker is not to lose it; automatic refresh can
      always be switched off, and on only while NoTrace is the authority. */
  lemma CompletedSettings(h: Home, name: string, authority: Authority, enabled: bool, n: nat)
    requires 1 <= n
    ensures var h' := Step(h, name, Event(SetAuthority(authority), n));
            if h.auth.Good? && (h.policy.authority == Broker ==> authority == Broker) then
              && h'.auth == h.auth && h'.work == h.work
              && h'.policy == Policy(authority, authority == NoTrace, h.policy.lastRefreshAt, None, 0, None)
            else h' == h
    ensures var h' := Step(h, name, Event(SetAutoRefresh(enabled), n));
            if enabled && h.policy.authority != NoTrace then h' == h
            else h'.auth == h.auth && h'.work == h.work && h'.policy == h.policy.(enabled := enabled)
  {
    var a, b := AuthorityMoves(h, authority), AutoRefreshMoves(h, enabled);
    CompleteWithEnough(h, a, n);
    CompleteWithEnough(h, b, n);
    if a.Do? {
      CompleteStep(h, a.move, Done);
    }
    if b.Do? {
      CompleteStep(h, b.move, Done);
    }
  }
}
