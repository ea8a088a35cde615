/** Who may rotate the desktop's credential, over every run of the desktop's operations,
    each cut off anywhere. */
module HandoverSafety {
  import opened Basics
  import opened LocalAuth

  datatype Act =
    | Refresh(session: Session, now: nat)
    | Login(obtained: Option<Cred>, now: nat)
    | GiveToBroker
    | ImportToBroker(token: string, accepted: bool)
    | SetAuthority(authority: Authority)
    | SetAutoRefresh(enabled: bool)

  datatype Event = Event(act: Act, moves: nat)

  function MovesOf(h: Home, name: string, act: Act): Moves {
    match act
    case Refresh(session, now) => RefreshMoves(h, name, session, now)
    case Login(obtained, now) => LoginMoves(h, name, obtained, now)
    case GiveToBroker => HandOffMoves(h)
    case ImportToBroker(token, accepted) => ImportMoves(h, token, accepted)
    case SetAuthority(authority) => AuthorityMoves(h, authority)
    case SetAutoRefresh(enabled) => AutoRefreshMoves(h, enabled)
  }

  function Step(h: Home, name: string, ev: Event): Home {
    Carry(h, MovesOf(h, name, ev.act), ev.moves)
  }

  function Run(h: Home, name: string, evs: seq<Event>): Home
    decreases |evs|
  {
    if evs == [] then h else Run(Step(h, name, evs[0]), name, evs[1..])
  }

  // ----- Tokens handed to the Broker -----

  function HandedOver(log: seq<Move>): set<string> {
    set i | 0 <= i < |log| && log[i].HandOff? :: log[i].token
  }

  lemma HandedOverGrows(log: seq<Move>, m: Move)
    ensures HandedOver(log + [m]) == HandedOver(log) + (if m.HandOff? then {m.token} else {})
  {
    forall t | t in HandedOver(log)
      ensures t in HandedOver(log + [m])
    {
      var i :| 0 <= i < |log| && log[i].HandOff? && log[i].token == t;
      assert (log + [m])[i] == log[i];
    }
    if m.HandOff? {
      assert (log + [m])[|log|] == m;
    }
  }

  /** The desktop sends no token to the provider after passing it to the Broker. */
  ghost predicate NeverTakenBack(log: seq<Move>) {
    forall i, j | 0 <= i < j < |log| && log[i].HandOff? && log[j].Send? :: log[i].token != log[j].token
  }

  predicate HandedCred(file: CredFile, log: seq<Move>) {
    file.Good? && file.cred.refresh in HandedOver(log)
  }

  /** While a handed-over token lies in the credential file or the working directory, the
      Broker is the recorded authority. */
  predicate Frozen(h: Home) {
    HandedCred(h.auth, h.log) || (h.work.Dir? && HandedCred(h.work.file, h.log)) ==> h.policy.authority.Broker?
  }

  /** New tokens are not ones already handed over. */
  predicate Honest(h: Home, act: Act) {
    match act
    case Refresh(session, _) =>
      session.left.Good? ==>
        || (h.auth.Good? && session.left.cred.refresh == h.auth.cred.refresh)
        || session.left.cred.refresh !in HandedOver(h.log)
    case Login(obtained, _) => obtained.Some? ==> obtained.value.refresh !in HandedOver(h.log)
    case _ => true
  }

  /** A login that has made NoTrace the authority again stops before it has swept a working
      directory still holding a handed-over credential. */
  predicate Exposing(h: Home, name: string, ev: Event) {
    && ev.act.Login? && MovesOf(h, name, ev.act).Do?
    && h.work.Dir? && HandedCred(h.work.file, h.log)
    && 2 <= ev.moves <= 3
  }

  /** A move after which the directory is still frozen, and which sends no handed-over token. */
  predicate Allowed(h: Home, m: Move) {
    Frozen(Apply(h, m)) && (m.Send? ==> m.token !in HandedOver(h.log))
  }

  predicate AllAllowed(h: Home, moves: Moves)
    decreases moves
  {
    moves.Do? ==> Allowed(h, moves.move) && AllAllowed(Apply(h, moves.move), moves.rest)
  }

  lemma NeverTakenBackStep(log: seq<Move>, m: Move)
    requires NeverTakenBack(log) && (m.Send? ==> m.token !in HandedOver(log))
    ensures NeverTakenBack(log + [m])
  {
  }

  lemma {:induction false} AllowedMovesAreSafe(h: Home, moves: Moves, n: nat)
    requires Frozen(h) && NeverTakenBack(h.log) && AllAllowed(h, moves)
    ensures Frozen(Carry(h, moves, n)) && NeverTakenBack(Carry(h, moves, n).log)
    decreases moves
  {
    if moves.Do? && n != 0 {
      NeverTakenBackStep(h.log, moves.move);
      AllowedMovesAreSafe(Apply(h, moves.move), moves.rest, n - 1);
    }
  }

  /** Policy records that keep the authority. */
  lemma RecordIsAllowed(h: Home, failure: Failure, now: nat)
    requires Frozen(h)
    ensures AllAllowed(h, RecordFailure(h.policy, failure, now, Done))
  {
  }

  lemma SweepIsAllowed(h: Home, rest: Moves)
    requires Frozen(h)
    requires AllAllowed(Apply(Apply(h, EmptyDir), RemoveDir), rest)
    ensures AllAllowed(h, Sweep(rest))
  {
  }

  lemma AdoptIsAllowed(h: Home, c: Cred, now: nat)
    requires Frozen(h) && h.policy.authority.NoTrace? && c.refresh !in HandedOver(h.log)
    ensures AllAllowed(h, Adopt(h.policy, c, now))
  {
    var h1 := Apply(h, Promote(c));
    HandedOverGrows(h.log, Promote(c));
    var save := SavePolicy(SuccessPolicy(h.policy, false, now));
    var h2 := Apply(h1, save);
    HandedOverGrows(h1.log, save);
    SweepIsAllowed(h2, Done);
    assert AllAllowed(h1, Do(save, Sweep(Done)));
  }

  lemma ConcludeIsAllowed(h: Home, name: string, previous: Cred, s: Session, now: nat)
    requires Frozen(h) && h.policy.authority.NoTrace? && h.work == Dir(s.left)
    ensures AllAllowed(h, Conclude(name, h.policy, previous, s, now))
  {
    if s.left.Good? && s.left.cred.Digest() != previous.Digest() && now + 60 < s.left.cred.expiresAt {
      if KeepsIdentity(name, Some(previous), s.left.cred) {
        AdoptIsAllowed(h, s.left.cred, now);
      } else {
        RecordIsAllowed(h, Identity, now);
      }
    } else if s.left.Good? && s.left.cred.Digest() == previous.Digest() {
      var failure := if s.failure.Some? then s.failure.value else Unchanged;
      var h2 := Apply(Apply(h, EmptyDir), RemoveDir);
      HandedOverGrows(h.log, EmptyDir);
      HandedOverGrows(h.log + [EmptyDir], RemoveDir);
      RecordIsAllowed(h2, failure, now);
      SweepIsAllowed(h, RecordFailure(h.policy, failure, now, Done));
    } else {
      RecordIsAllowed(h, Recovery, now);
    }
  }

  lemma SessionIsAllowed(h: Home, name: string, s: Session, now: nat)
    requires Frozen(h) && h.policy.authority.NoTrace? && h.auth.Good? && h.work.Absent?
    requires s.left.Good? ==> s.left.cred.refresh == h.auth.cred.refresh || s.left.cred.refresh !in HandedOver(h.log)
    ensures AllAllowed(h, StartSession(name, h.policy, h.auth.cred, s, now))
  {
    var previous := h.auth.cred;
    if StartSession(name, h.policy, previous, s, now).Do? {
      var h1 := Apply(h, MakeDir);
      HandedOverGrows(h.log, MakeDir);
      var h2 := Apply(h1, CopyIn(previous));
      HandedOverGrows(h1.log, CopyIn(previous));
      var send := Send(previous.refresh);
      var h3 := if s.sent then Apply(h2, send) else h2;
      HandedOverGrows(h2.log, send);
      var h4 := Apply(h3, Leave(s.left));
      HandedOverGrows(h3.log, Leave(s.left));
      ConcludeIsAllowed(h4, name, previous, s, now);
      var tail := Do(Leave(s.left), Conclude(name, h.policy, previous, s, now));
      assert AllAllowed(h3, tail);
      assert AllAllowed(h2, RunSession(name, h.policy, previous, s, now));
      assert AllAllowed(h1, Do(CopyIn(previous), RunSession(name, h.policy, previous, s, now)));
    }
  }

  lemma RefreshIsAllowed(h: Home, name: string, s: Session, now: nat)
    requires Frozen(h) && Honest(h, Refresh(s, now))
    ensures AllAllowed(h, RefreshMoves(h, name, s, now))
  {
    if h.policy.authority.NoTrace? && !h.auth.NoFile? {
      if h.auth.Broken? {
        RecordIsAllowed(h, Credentials, now);
      } else if h.work.Absent? {
        SessionIsAllowed(h, name, s, now);
      } else if !h.work.file.Good? {
        RecordIsAllowed(h, Recovery, now);
      } else {
        var previous, candidate := h.auth.cred, h.work.file.cred;
        if candidate.Digest() == previous.Digest() {
          var h2 := Apply(Apply(h, EmptyDir), RemoveDir);
          HandedOverGrows(h.log, EmptyDir);
          HandedOverGrows(h.log + [EmptyDir], RemoveDir);
          SessionIsAllowed(h2, name, s, now);
          SweepIsAllowed(h, StartSession(name, h.policy, previous, s, now));
        } else if now < candidate.expiresAt && KeepsIdentity(name, Some(previous), candidate) {
          AdoptIsAllowed(h, candidate, now);
        } else {
          RecordIsAllowed(h, Recovery, now);
        }
      }
    }
  }

  /** Giving a token away is allowed once the Broker is the recorded authority. */
  lemma HandOffIsAllowed(h: Home, token: string, rest: Moves)
    requires h.policy.authority.Broker? && AllAllowed(Apply(h, HandOff(token)), rest)
    ensures AllAllowed(h, Do(HandOff(token), rest))
  {
  }

  lemma OwnershipActsAreAllowed(h: Home, name: string, act: Act)
    requires Frozen(h) && !act.Refresh? && !act.Login?
    ensures AllAllowed(h, MovesOf(h, name, act))
  {
    var moves := MovesOf(h, name, act);
    if moves.Do? {
      HandedOverGrows(h.log, moves.move);
      var h1 := Apply(h, moves.move);
      if moves.rest.Do? {
        HandedOverGrows(h1.log, moves.rest.move);
        var h2 := Apply(h1, moves.rest.move);
        if moves.rest.rest.Do? {
          HandedOverGrows(h2.log, moves.rest.rest.move);
          assert AllAllowed(Apply(h2, moves.rest.rest.move), moves.rest.rest.rest);
        }
        HandOffIsAllowed(h1, moves.rest.move.token, moves.rest.rest);
      }
    }
  }

  /** A login leaves the directory frozen exactly when it does not stop in the window
      between taking the authority back and sweeping a handed-over credential. */
  lemma LoginIsSafeUnlessExposing(h: Home, name: string, ev: Event)
    requires Frozen(h) && NeverTakenBack(h.log) && ev.act.Login? && Honest(h, ev.act)
    ensures Frozen(Step(h, name, ev)) <==> !Exposing(h, name, ev)
    ensures NeverTakenBack(Step(h, name, ev).log)
  {
    var moves := MovesOf(h, name, ev.act);
    if moves.Do? {
      var h1 := Apply(h, moves.move);
      HandedOverGrows(h.log, moves.move);
      NeverTakenBackStep(h.log, moves.move);
      var h2 := Apply(h1, moves.rest.move);
      HandedOverGrows(h1.log, moves.rest.move);
      NeverTakenBackStep(h1.log, moves.rest.move);
      var h3 := Apply(h2, moves.rest.rest.move);
      HandedOverGrows(h2.log, moves.rest.rest.move);
      NeverTakenBackStep(h2.log, moves.rest.rest.move);
      var tail := moves.rest.rest.rest;
      if ev.moves >= 1 {
        assert Step(h, name, ev) == Carry(h1, moves.rest, ev.moves - 1);
        if ev.moves >= 2 {
          assert Step(h, name, ev) == Carry(h2, moves.rest.rest, ev.moves - 2);
          if ev.moves >= 3 {
            assert Step(h, name, ev) == Carry(h3, tail, ev.moves - 3);
            if ev.moves >= 4 && tail.Do? {
              var h4 := Apply(h3, EmptyDir);
              HandedOverGrows(h3.log, EmptyDir);
              NeverTakenBackStep(h3.log, EmptyDir);
              assert tail == Do(EmptyDir, Do(RemoveDir, Done));
              assert Step(h, name, ev) == Carry(h4, Do(RemoveDir, Done), ev.moves - 4);
              HandedOverGrows(h4.log, RemoveDir);
              assert AllAllowed(Apply(h4, RemoveDir), Done);
              AllowedMovesAreSafe(h4, Do(RemoveDir, Done), ev.moves - 4);
            }
          }
        }
      }
    }
  }

  predicate SafeRun(h: Home, name: string, evs: seq<Event>)
    decreases |evs|
  {
    evs != [] ==>
      Honest(h, evs[0].act) && !Exposing(h, name, evs[0]) && SafeRun(Step(h, name, evs[0]), name, evs[1..])
  }

  /** In every run in which no login stops inside that window, the desktop never sends the
      provider a refresh token it has passed to the Broker. */
  lemma {:induction false} HandedOverIsNeverTakenBack(h: Home, name: string, evs: seq<Event>)
    requires Frozen(h) && NeverTakenBack(h.log) && SafeRun(h, name, evs)
    ensures NeverTakenBack(Run(h, name, evs).log) && Frozen(Run(h, name, evs))
    decreases |evs|
  {
    if evs != [] {
      var ev := evs[0];
      match ev.act {
        case Login(_, _) => LoginIsSafeUnlessExposing(h, name, ev);
        case Refresh(s, now) =>
          RefreshIsAllowed(h, name, s, now);
          AllowedMovesAreSafe(h, MovesOf(h, name, ev.act), ev.moves);
        case _ =>
          OwnershipActsAreAllowed(h, name, ev.act);
          AllowedMovesAreSafe(h, MovesOf(h, name, ev.act), ev.moves);
      }
      HandedOverIsNeverTakenBack(Step(h, name, ev), name, evs[1..]);
    }
  }

  /** The authority goes from the Broker back to NoTrace only in a login whose credential is
      already the credential file, unexpired and of the same account. */
  lemma OnlyLoginTakesAuthorityBack(h: Home, name: string, ev: Event)
    requires h.policy.authority.Broker? && !Step(h, name, ev).policy.authority.Broker?
    ensures ev.act.Login? && ev.act.obtained.Some? && 2 <= ev.moves
    ensures Step(h, name, ev).auth == Good(ev.act.obtained.value)
    ensures ev.act.now < ev.act.obtained.value.expiresAt && KeepsIdentity(name, Readable(h.auth), ev.act.obtained.value)
  {
    var moves := MovesOf(h, name, ev.act);
    if ev.act.Login? {
      if moves.Do? && ev.moves >= 1 {
        var h1 := Apply(h, moves.move);
        assert Step(h, name, ev) == Carry(h1, moves.rest, ev.moves - 1);
        if ev.moves >= 2 {
          var h2 := Apply(h1, moves.rest.move);
          assert Step(h, name, ev) == Carry(h2, moves.rest.rest, ev.moves - 2);
          TailKeepsAuth(h2, moves.rest.rest, ev.moves - 2);
        }
      }
    } else {
      assert ev.act.Refresh? ==> moves.Done?;
      assert moves.Do? ==> LeavesToBroker(moves.rest);
      BrokerStays(h, moves, ev.moves);
    }
  }

  /** Every policy these moves save names the Broker. */
  predicate LeavesToBroker(moves: Moves)
    decreases moves
  {
    moves.Do? ==> (moves.move.SavePolicy? ==> moves.move.policy.authority.Broker?) && LeavesToBroker(moves.rest)
  }

  lemma {:induction false} BrokerStays(h: Home, moves: Moves, n: nat)
    requires h.policy.authority.Broker? && LeavesToBroker(moves)
    ensures Carry(h, moves, n).policy.authority.Broker?
    decreases moves
  {
    if moves.Do? && n != 0 {
      BrokerStays(Apply(h, moves.move), moves.rest, n - 1);
    }
  }

  predicate Installs(moves: Moves)
    decreases moves
  {
    moves.Do? && (moves.move.InstallLogin? || moves.move.Promote? || Installs(moves.rest))
  }

  lemma {:induction false} TailKeepsAuth(h: Home, moves: Moves, n: nat)
    requires !Installs(moves)
    ensures Carry(h, moves, n).auth == h.auth
    decreases moves
  {
    if moves.Do? && n != 0 {
      TailKeepsAuth(Apply(h, moves.move), moves.rest, n - 1);
    }
  }
}
