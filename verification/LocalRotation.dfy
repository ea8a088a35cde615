/** What the desktop's own rotation keeps at every crash point, and where a stale working
    directory defeats it. */
module LocalRotation {
  import opened Basics
  import opened LocalAuth
  import opened HandoverSafety

  // ----- The exposing window is real -----

  /** From a directory that an exposing login leaves behind, two ordinary refreshes adopt
      the handed-over credential in place of the new one and send it to the provider. */
  lemma ExposedTokenIsSent(h: Home, name: string, first: Session, second: Session, now: nat)
    requires h.policy.authority.NoTrace? && h.auth.Good?
    requires h.work.Dir? && HandedCred(h.work.file, h.log)
    requires var stale := h.work.file.cred;
             && stale.Digest() != h.auth.cred.Digest() && now < stale.expiresAt
             && KeepsIdentity(name, Some(h.auth.cred), stale)
    requires second.sent
    ensures var h1 := Run(h, name, [Event(Refresh(first, now), 4)]);
            h1.auth == h.work.file && h1.work.Absent?
    ensures !NeverTakenBack(Run(h, name, [Event(Refresh(first, now), 4), Event(Refresh(second, now), 3)]).log)
  {
    var stale := h.work.file.cred;
    var r1, r2 := Event(Refresh(first, now), 4), Event(Refresh(second, now), 3);
    var moves := RefreshMoves(h, name, first, now);
    assert moves == Adopt(h.policy, stale, now);
    var a1 := Apply(h, moves.move);
    var a2 := Apply(a1, moves.rest.move);
    var a3 := Apply(a2, moves.rest.rest.move);
    var a4 := Apply(a3, moves.rest.rest.rest.move);
    CarryFour(h, moves);
    assert Step(h, name, r1) == a4;

    var next := RefreshMoves(a4, name, second, now);
    var send := Send(stale.refresh);
    assert next == Do(MakeDir, Do(CopyIn(stale), Do(send, next.rest.rest.rest)));
    var b1 := Apply(a4, MakeDir);
    var b2 := Apply(b1, CopyIn(stale));
    var b3 := Apply(b2, send);
    CarryThree(a4, next);
    assert Step(a4, name, r2) == b3;

    assert [r1, r2][1..] == [r2] && [r2][1..] == [] && [r1][1..] == [];
    assert Run(h, name, [r1, r2]) == Run(a4, name, [r2]) == Run(b3, name, []) == b3;
    assert Run(h, name, [r1]) == Run(a4, name, []) == a4;

    var i :| 0 <= i < |h.log| && h.log[i].HandOff? && h.log[i].token == stale.refresh;
    var log := h.log + [moves.move] + [moves.rest.move] + [EmptyDir] + [RemoveDir] + [MakeDir] + [CopyIn(stale)] + [send];
    assert b3.log == log && log[i] == h.log[i] && log[|log| - 1] == send;
  }

  lemma CarryTwo(h: Home, moves: Moves)
    requires moves.Do? && moves.rest.Do?
    ensures Carry(h, moves, 2) == Apply(Apply(h, moves.move), moves.rest.move)
  {
    var h1 := Apply(h, moves.move);
    var h2 := Apply(h1, moves.rest.move);
    assert Carry(h1, moves.rest, 1) == Carry(h2, moves.rest.rest, 0) == h2;
  }

  lemma CarryThree(h: Home, moves: Moves)
    requires moves.Do? && moves.rest.Do? && moves.rest.rest.Do?
    ensures Carry(h, moves, 3) == Apply(Apply(Apply(h, moves.move), moves.rest.move), moves.rest.rest.move)
  {
    var h1 := Apply(h, moves.move);
    var h2 := Apply(h1, moves.rest.move);
    var h3 := Apply(h2, moves.rest.rest.move);
    assert Carry(h2, moves.rest.rest, 1) == Carry(h3, moves.rest.rest.rest, 0) == h3;
    assert Carry(h1, moves.rest, 2) == h3;
  }

  lemma CarryFour(h: Home, moves: Moves)
    requires moves.Do? && moves.rest.Do? && moves.rest.rest.Do? && moves.rest.rest.rest.Do?
    ensures Carry(h, moves, 4) ==
              Apply(Apply(Apply(Apply(h, moves.move), moves.rest.move), moves.rest.rest.move), moves.rest.rest.rest.move)
  {
    CarryThree(Apply(h, moves.move), moves.rest);
  }

  // A run to the window, state by state.
  const FIRST := Cred("a0", "r0", 100, None, None)
  const SECOND := Cred("a1", "r1", 100, None, None)
  const START := Home(NoFile, Policy(NoTrace, false, None, None, 0, None), Absent, [])
  const UNSENT := Session(false, NoFile, None)

  lemma FirstLogin()
    ensures var h := Step(START, "p", Event(Login(Some(FIRST), 1), 3));
            h.auth == Good(FIRST) && h.policy == Policy(NoTrace, true, Some(1), None, 0, None) && h.work.Absent?
  {
  }

  lemma RefreshCutOff(h: Home)
    requires h.auth == Good(FIRST) && h.policy == Policy(NoTrace, true, Some(1), None, 0, None) && h.work.Absent?
    ensures Step(h, "p", Event(Refresh(UNSENT, 1), 2)) == Apply(Apply(h, MakeDir), CopyIn(FIRST))
  {
  }

  lemma HandedOff(h: Home)
    requires h.auth == Good(FIRST) && h.policy.authority.NoTrace?
    ensures Step(h, "p", Event(GiveToBroker, 2)) ==
              Apply(Apply(h, SavePolicy(h.policy.(authority := Broker, enabled := false))), HandOff("r0"))
  {
    CarryTwo(h, HandOffMoves(h));
  }

  lemma SecondLoginCutOff(h: Home)
    requires h.auth == Good(FIRST) && h.work == Dir(Good(FIRST)) && "r0" in HandedOver(h.log)
    ensures var h' := Step(h, "p", Event(Login(Some(SECOND), 1), 3));
            && h'.auth == Good(SECOND) && h'.policy.authority.NoTrace? && h'.work == Dir(Good(FIRST))
            && "r0" in HandedOver(h'.log)
  {
    var moves := LoginMoves(h, "p", Some(SECOND), 1);
    CarryThree(h, moves);
    HandedOverGrows(h.log, moves.move);
    HandedOverGrows(h.log + [moves.move], moves.rest.move);
    HandedOverGrows(h.log + [moves.move] + [moves.rest.move], moves.rest.rest.move);
  }

  /** A first login, a refresh cut off before its request, a hand-off, and a second login
      cut off in the window: the directory is no longer frozen, and two refreshes later
      the desktop has sent a token that it had passed to the Broker. */
  lemma WindowIsReachable(session: Session)
    requires session.sent
    ensures var h := Run(START, "p", [Event(Login(Some(FIRST), 1), 3), Event(Refresh(UNSENT, 1), 2),
                                      Event(GiveToBroker, 2), Event(Login(Some(SECOND), 1), 3)]);
            && !Frozen(h)
            && !NeverTakenBack(Run(h, "p", [Event(Refresh(UNSENT, 1), 4), Event(Refresh(session, 1), 3)]).log)
  {
    var e1, e2 := Event(Login(Some(FIRST), 1), 3), Event(Refresh(UNSENT, 1), 2);
    var e3, e4 := Event(GiveToBroker, 2), Event(Login(Some(SECOND), 1), 3);
    var h1 := Step(START, "p", e1);
    FirstLogin();
    var h4 := ToTheWindow(h1);
    RunFour(START, "p", e1, e2, e3, e4);
    ExposedTokenIsSent(h4, "p", UNSENT, session, 1);
  }

  lemma ToTheWindow(h1: Home) returns (h4: Home)
    requires h1.auth == Good(FIRST) && h1.policy == Policy(NoTrace, true, Some(1), None, 0, None) && h1.work.Absent?
    ensures h4 == Step(Step(Step(h1, "p", Event(Refresh(UNSENT, 1), 2)), "p", Event(GiveToBroker, 2)),
                       "p", Event(Login(Some(SECOND), 1), 3))
    ensures h4.auth == Good(SECOND) && h4.policy.authority.NoTrace? && h4.work == Dir(Good(FIRST))
    ensures "r0" in HandedOver(h4.log)
  {
    var h2 := Step(h1, "p", Event(Refresh(UNSENT, 1), 2));
    RefreshCutOff(h1);
    var h3 := Step(h2, "p", Event(GiveToBroker, 2));
    HandedOff(h2);
    var frozen := SavePolicy(h2.policy.(authority := Broker, enabled := false));
    HandedOverGrows(h2.log + [frozen], HandOff("r0"));
    h4 := Step(h3, "p", Event(Login(Some(SECOND), 1), 3));
    SecondLoginCutOff(h3);
  }

  lemma RunFour(h: Home, name: string, e1: Event, e2: Event, e3: Event, e4: Event)
    ensures Run(h, name, [e1, e2, e3, e4]) == Step(Step(Step(Step(h, name, e1), name, e2), name, e3), name, e4)
  {
    assert [e1, e2, e3, e4][1..] == [e2, e3, e4] && [e2, e3, e4][1..] == [e3, e4];
    assert [e3, e4][1..] == [e4] && [e4][1..] == [];
    var h1 := Step(h, name, e1);
    var h2 := Step(h1, name, e2);
    var h3 := Step(h2, name, e3);
    assert Run(h3, name, [e4]) == Run(Step(h3, name, e4), name, []);
    assert Run(h2, name, [e3, e4]) == Run(h3, name, [e4]);
    assert Run(h1, name, [e2, e3, e4]) == Run(h2, name, [e3, e4]);
  }

  // ----- When the desktop asks the provider -----

  predicate Sends(moves: Moves)
    decreases moves
  {
    moves.Do? && (moves.move.Send? || Sends(moves.rest))
  }

  lemma ConcludeSendsNothing(name: string, p: Policy, previous: Cred, s: Session, now: nat)
    ensures !Sends(Conclude(name, p, previous, s, now))
  {
    var moves := Conclude(name, p, previous, s, now);
    if moves.Do? && moves.rest.Do? && moves.rest.rest.Do? {
      assert !Sends(moves.rest.rest.rest);
      assert !Sends(moves.rest.rest);
    }
    if moves.Do? {
      assert !Sends(moves.rest);
    }
  }

  lemma SessionSendsExactlyWhen(name: string, p: Policy, previous: Cred, s: Session, now: nat)
    ensures Sends(StartSession(name, p, previous, s, now)) <==> s.sent && !(p.error.Some? && p.error.value.Terminal())
  {
    ConcludeSendsNothing(name, p, previous, s, now);
    var tail := Do(Leave(s.left), Conclude(name, p, previous, s, now));
    assert !Sends(tail);
    assert Sends(RunSession(name, p, previous, s, now)) <==> s.sent;
    assert Sends(Do(CopyIn(previous), RunSession(name, p, previous, s, now))) <==> s.sent;
  }

  /** Of all operations only a refresh sends a token to the provider, and only while NoTrace
      is the authority, no terminal failure is on record, and no other credential waits in
      the working directory. */
  lemma TokenIsSentExactlyWhen(h: Home, name: string, act: Act)
    ensures Sends(MovesOf(h, name, act)) <==>
              && act.Refresh? && act.session.sent
              && h.policy.authority.NoTrace? && h.auth.Good?
              && !(h.policy.error.Some? && h.policy.error.value.Terminal())
              && (h.work.Absent? || (h.work.file.Good? && h.work.file.cred.Digest() == h.auth.cred.Digest()))
  {
    var moves := MovesOf(h, name, act);
    if act.Refresh? && h.auth.Good? {
      SessionSendsExactlyWhen(name, h.policy, h.auth.cred, act.session, act.now);
      if moves.Do? && moves.move.EmptyDir? {
        assert moves.rest.rest == StartSession(name, h.policy, h.auth.cred, act.session, act.now);
        assert Sends(moves.rest) == Sends(moves.rest.rest);
      } else if moves.Do? && moves.move.Promote? {
        assert !Sends(moves.rest.rest.rest);
        assert !Sends(moves.rest.rest);
      }
    } else if act.Login? && moves.Do? {
      assert !Sends(Do(RemoveDir, Done)) && !Sends(Sweep(Done));
      assert !Sends(moves.rest.rest.rest);
      assert !Sends(moves.rest.rest);
    } else if moves.Do? && moves.rest.Do? {
      assert !Sends(moves.rest.rest);
    }
  }

  /** The directory after all the moves. */
  function Complete(h: Home, moves: Moves): Home
    decreases moves
  {
    if moves.Done? then h else Complete(Apply(h, moves.move), moves.rest)
  }

  lemma {:induction false} CompleteIsEveryMove(h: Home, moves: Moves)
    ensures Carry(h, moves, Length(moves)) == Complete(h, moves)
    decreases moves
  {
    if moves.Do? {
      CompleteIsEveryMove(Apply(h, moves.move), moves.rest);
    }
  }

  predicate Tidy(h: Home) {
    h.work.Absent? || h.policy.error == Some(Recovery) || h.policy.error == Some(Identity)
  }

  lemma CompleteStep(h: Home, m: Move, rest: Moves)
    ensures Complete(h, Do(m, rest)) == Complete(Apply(h, m), rest)
  {
  }

  lemma SweptIsTidy(h: Home, rest: Moves)
    ensures Complete(h, Sweep(rest)) == Complete(Apply(Apply(h, EmptyDir), RemoveDir), rest)
    ensures Complete(h, Sweep(Done)).work.Absent?
  {
    var h1 := Apply(h, EmptyDir);
    CompleteStep(h, EmptyDir, Do(RemoveDir, rest));
    CompleteStep(h, EmptyDir, Do(RemoveDir, Done));
    CompleteStep(h1, RemoveDir, rest);
    CompleteStep(h1, RemoveDir, Done);
  }

  lemma AdoptIsTidy(h: Home, c: Cred, now: nat)
    ensures Complete(h, Adopt(h.policy, c, now)).work.Absent?
  {
    var save := SavePolicy(SuccessPolicy(h.policy, false, now));
    var rest := Sweep(Done);
    var h1 := Apply(h, Promote(c));
    CompleteStep(h, Promote(c), Do(save, rest));
    CompleteStep(h1, save, rest);
    SweptIsTidy(Apply(h1, save), Done);
  }

  lemma ConcludeIsTidy(h: Home, name: string, previous: Cred, s: Session, now: nat)
    ensures Tidy(Complete(h, Conclude(name, h.policy, previous, s, now)))
  {
    var moves := Conclude(name, h.policy, previous, s, now);
    if moves.move.Promote? {
      AdoptIsTidy(h, moves.move.cred, now);
    } else if moves.move.EmptyDir? {
      SweptIsTidy(h, moves.rest.rest);
    }
  }

  lemma SessionIsTidy(h: Home, name: string, previous: Cred, s: Session, now: nat)
    requires h.work.Absent?
    ensures Tidy(Complete(h, StartSession(name, h.policy, previous, s, now)))
  {
    var moves := StartSession(name, h.policy, previous, s, now);
    if moves.Do? {
      var h2 := Apply(Apply(h, MakeDir), CopyIn(previous));
      var h3 := if s.sent then Apply(h2, Send(previous.refresh)) else h2;
      var h4 := Apply(h3, Leave(s.left));
      var end := Conclude(name, h.policy, previous, s, now);
      ConcludeIsTidy(h4, name, previous, s, now);
      assert Complete(h3, Do(Leave(s.left), end)) == Complete(h4, end);
      assert Complete(h2, RunSession(name, h.policy, previous, s, now)) == Complete(h4, end);
      assert Complete(Apply(h, MakeDir), moves.rest) == Complete(h4, end);
    }
  }

  /** A refresh that runs to its end leaves a working directory behind only together with a
      terminal failure that says why. */
  lemma CompletedRefreshTidiesUp(h: Home, name: string, s: Session, now: nat)
    requires h.policy.authority.NoTrace? && h.auth.Good?
    ensures var moves := RefreshMoves(h, name, s, now);
            Tidy(Carry(h, moves, Length(moves)))
  {
    var moves := RefreshMoves(h, name, s, now);
    CompleteIsEveryMove(h, moves);
    if h.work.Absent? {
      SessionIsTidy(h, name, h.auth.cred, s, now);
    } else if moves.move.Promote? {
      AdoptIsTidy(h, moves.move.cred, now);
    } else if moves.move.EmptyDir? {
      var h2 := Apply(Apply(h, EmptyDir), RemoveDir);
      SweptIsTidy(h, moves.rest.rest);
      SessionIsTidy(h2, name, h.auth.cred, s, now);
    }
  }

  // ----- A rotated credential is never lost -----

  /** The credential of the last refresh that brought one, unless a login came after it. */
  function Rotated(log: seq<Move>): Option<Cred>
    decreases |log|
  {
    if log == [] then None
    else
      var m := log[|log| - 1];
      if m.InstallLogin? then None
      else if m.Leave? && m.file.Good? then Some(m.file.cred)
      else Rotated(log[..|log| - 1])
  }

  /** The rotated credential is in the working directory, or is the credential file's, up
      to its digest; and then the working directory holds no other one. */
  predicate Kept(h: Home) {
    var born := Rotated(h.log);
    born.Some? ==>
      || h.work == Dir(Good(born.value))
      || (&& h.auth.Good? && h.auth.cred.Digest() == born.value.Digest()
          && (h.work.Dir? && h.work.file.Good? ==> h.work.file.cred.Digest() == born.value.Digest()))
  }

  predicate KeptThroughout(h: Home, moves: Moves)
    decreases moves
  {
    moves.Do? ==> Kept(Apply(h, moves.move)) && KeptThroughout(Apply(h, moves.move), moves.rest)
  }

  lemma RotatedStep(log: seq<Move>, m: Move)
    ensures Rotated(log + [m]) == if m.InstallLogin? then None
                                  else if m.Leave? && m.file.Good? then Some(m.file.cred) else Rotated(log)
  {
  }

  lemma {:induction false} KeptAnywhere(h: Home, moves: Moves, n: nat)
    requires Kept(h) && KeptThroughout(h, moves)
    ensures Kept(Carry(h, moves, n))
    decreases moves
  {
    if moves.Do? && n != 0 {
      KeptAnywhere(Apply(h, moves.move), moves.rest, n - 1);
    }
  }

  lemma RecordKeeps(h: Home, failure: Failure, now: nat)
    requires Kept(h)
    ensures KeptThroughout(h, RecordFailure(h.policy, failure, now, Done))
  {
  }

  /** Sweeping is safe once the credential file has the newest digest, or a login is newest. */
  lemma SweepKeeps(h: Home, rest: Moves)
    requires Kept(h)
    requires Rotated(h.log).Some? ==> h.auth.Good? && h.auth.cred.Digest() == Rotated(h.log).value.Digest()
    requires KeptThroughout(Apply(Apply(h, EmptyDir), RemoveDir), rest)
    ensures KeptThroughout(h, Sweep(rest))
  {
  }

  lemma AdoptKeeps(h: Home, c: Cred, now: nat)
    requires Kept(h) && h.work == Dir(Good(c)) && h.auth.Good?
    requires Rotated(h.log).Some? ==> Rotated(h.log).value == c
    ensures KeptThroughout(h, Adopt(h.policy, c, now))
  {
    var h1 := Apply(h, Promote(c));
    RotatedStep(h.log, Promote(c));
    var save := SavePolicy(SuccessPolicy(h.policy, false, now));
    var h2 := Apply(h1, save);
    RotatedStep(h1.log, save);
    SweepKeeps(h2, Done);
    assert KeptThroughout(h1, Do(save, Sweep(Done)));
  }

  lemma SessionKeeps(h: Home, name: string, s: Session, now: nat)
    requires Kept(h) && h.work.Absent? && h.auth.Good?
    ensures KeptThroughout(h, StartSession(name, h.policy, h.auth.cred, s, now))
  {
    var previous := h.auth.cred;
    if StartSession(name, h.policy, previous, s, now).Do? {
      var h1 := Apply(h, MakeDir);
      RotatedStep(h.log, MakeDir);
      var h2 := Apply(h1, CopyIn(previous));
      RotatedStep(h1.log, CopyIn(previous));
      RunSessionKeeps(h2, name, s, now);
      assert KeptThroughout(h1, Do(CopyIn(previous), RunSession(name, h.policy, previous, s, now)));
    }
  }

  lemma RunSessionKeeps(h: Home, name: string, s: Session, now: nat)
    requires Kept(h) && h.auth.Good? && h.work == Dir(h.auth)
    ensures KeptThroughout(h, RunSession(name, h.policy, h.auth.cred, s, now))
  {
    var previous := h.auth.cred;
    var send := Send(previous.refresh);
    var h1 := if s.sent then Apply(h, send) else h;
    RotatedStep(h.log, send);
    var h2 := Apply(h1, Leave(s.left));
    RotatedStep(h1.log, Leave(s.left));
    ConcludeKeeps(h2, name, previous, s, now);
    assert KeptThroughout(h1, Do(Leave(s.left), Conclude(name, h.policy, previous, s, now)));
  }

  lemma ConcludeKeeps(h: Home, name: string, previous: Cred, s: Session, now: nat)
    requires Kept(h) && h.work == Dir(s.left) && h.auth == Good(previous)
    requires s.left.Good? ==> Rotated(h.log) == Some(s.left.cred)
    ensures KeptThroughout(h, Conclude(name, h.policy, previous, s, now))
  {
    if s.left.Good? && s.left.cred.Digest() != previous.Digest() && now + 60 < s.left.cred.expiresAt {
      if KeepsIdentity(name, Some(previous), s.left.cred) {
        AdoptKeeps(h, s.left.cred, now);
      } else {
        RecordKeeps(h, Identity, now);
      }
    } else if s.left.Good? && s.left.cred.Digest() == previous.Digest() {
      var failure := if s.failure.Some? then s.failure.value else Unchanged;
      RotatedStep(h.log, EmptyDir);
      RotatedStep(h.log + [EmptyDir], RemoveDir);
      RecordKeeps(Apply(Apply(h, EmptyDir), RemoveDir), failure, now);
      SweepKeeps(h, RecordFailure(h.policy, failure, now, Done));
    } else {
      RecordKeeps(h, Recovery, now);
    }
  }

  lemma RefreshKeeps(h: Home, name: string, s: Session, now: nat)
    requires Kept(h)
    ensures KeptThroughout(h, RefreshMoves(h, name, s, now))
  {
    if h.policy.authority.NoTrace? && !h.auth.NoFile? {
      if h.auth.Broken? {
        RecordKeeps(h, Credentials, now);
      } else if h.work.Absent? {
        SessionKeeps(h, name, s, now);
      } else if !h.work.file.Good? {
        RecordKeeps(h, Recovery, now);
      } else {
        var previous, candidate := h.auth.cred, h.work.file.cred;
        if candidate.Digest() == previous.Digest() {
          RotatedStep(h.log, EmptyDir);
          RotatedStep(h.log + [EmptyDir], RemoveDir);
          SessionKeeps(Apply(Apply(h, EmptyDir), RemoveDir), name, s, now);
          SweepKeeps(h, StartSession(name, h.policy, previous, s, now));
        } else if now < candidate.expiresAt && KeepsIdentity(name, Some(previous), candidate) {
          AdoptKeeps(h, candidate, now);
        } else {
          RecordKeeps(h, Recovery, now);
        }
      }
    }
  }

  /** At every point a run may be cut off, the credential a refresh brought last is in the
      working directory or, by its digest, in the credential file, until a login succeeds. */
  lemma {:induction false} RotatedCredentialIsKept(h: Home, name: string, evs: seq<Event>)
    requires Kept(h)
    ensures Kept(Run(h, name, evs))
    decreases |evs|
  {
    if evs != [] {
      var ev := evs[0];
      var moves := MovesOf(h, name, ev.act);
      match ev.act {
        case Refresh(s, now) => RefreshKeeps(h, name, s, now);
        case Login(obtained, now) => LoginKeeps(h, name, obtained, now);
        case _ => OwnershipActsKeep(h, name, ev.act);
      }
      KeptAnywhere(h, moves, ev.moves);
      RotatedCredentialIsKept(Step(h, name, ev), name, evs[1..]);
    }
  }

  lemma LoginKeeps(h: Home, name: string, obtained: Option<Cred>, now: nat)
    requires Kept(h)
    ensures KeptThroughout(h, LoginMoves(h, name, obtained, now))
  {
    var moves := LoginMoves(h, name, obtained, now);
    if moves.Do? {
      var h1 := Apply(h, moves.move);
      RotatedStep(h.log, moves.move);
      var h2 := Apply(h1, moves.rest.move);
      RotatedStep(h1.log, moves.rest.move);
      var h3 := Apply(h2, moves.rest.rest.move);
      RotatedStep(h2.log, moves.rest.rest.move);
      if h.work.Dir? {
        SweepKeeps(h3, Done);
      }
      assert KeptThroughout(h3, moves.rest.rest.rest);
      assert KeptThroughout(h2, moves.rest.rest);
      assert KeptThroughout(h1, moves.rest);
    }
  }

  /** A policy saved or a credential handed over touches no file that holds a credential. */
  lemma NoticeKeeps(h: Home, m: Move)
    requires Kept(h) && (m.SavePolicy? || m.HandOff?)
    ensures Kept(Apply(h, m))
  {
    RotatedStep(h.log, m);
  }

  lemma OwnershipActsKeep(h: Home, name: string, act: Act)
    requires Kept(h) && !act.Refresh? && !act.Login?
    ensures KeptThroughout(h, MovesOf(h, name, act))
  {
    var moves := MovesOf(h, name, act);
    if moves.Do? {
      NoticeKeeps(h, moves.move);
      var h1 := Apply(h, moves.move);
      if moves.rest.Do? {
        NoticeKeeps(h1, moves.rest.move);
        var h2 := Apply(h1, moves.rest.move);
        if moves.rest.rest.Do? {
          NoticeKeeps(h2, moves.rest.rest.move);
        }
        assert KeptThroughout(h2, moves.rest.rest);
      }
      assert KeptThroughout(h1, moves.rest);
    }
  }

  // ----- The account never changes hands -----

  /** The second file is of the same account, as far as the first one tells. */
  predicate SameAccount(before: CredFile, after: CredFile) {
    before.Good? ==>
      && after.Good?
      && (before.cred.email.Some? ==>
            after.cred.email.Some? && SameIgnoringCase(after.cred.email.value, before.cred.email.value))
      && (before.cred.account.Some? ==> after.cred.account == before.cred.account)
  }

  /** Every move that replaces the credential file keeps the account. */
  predicate KeepsAccount(auth: CredFile, moves: Moves)
    decreases moves
  {
    moves.Do? ==>
      && (moves.move.Promote? || moves.move.InstallLogin? ==> SameAccount(auth, Good(moves.move.cred)))
      && KeepsAccount(if moves.move.Promote? || moves.move.InstallLogin? then Good(moves.move.cred) else auth, moves.rest)
  }

  lemma {:induction false} CarryKeepsAccount(h: Home, moves: Moves, n: nat)
    requires KeepsAccount(h.auth, moves)
    ensures SameAccount(h.auth, Carry(h, moves, n).auth)
    decreases moves
  {
    if moves.Do? && n != 0 {
      CarryKeepsAccount(Apply(h, moves.move), moves.rest, n - 1);
    }
  }

  lemma SessionKeepsAccount(name: string, p: Policy, previous: Cred, s: Session, now: nat)
    ensures KeepsAccount(Good(previous), StartSession(name, p, previous, s, now))
  {
    var end := Conclude(name, p, previous, s, now);
    assert KeepsAccount(Good(previous), end) by {
      if end.Do? && end.move.Promote? {
        AdoptKeepsAccount(Good(previous), p, end.move.cred, now);
      } else if end.Do? && end.move.EmptyDir? {
        assert KeepsAccount(Good(previous), end.rest.rest);
        assert KeepsAccount(Good(previous), end.rest);
      }
    }
    assert KeepsAccount(Good(previous), Do(Leave(s.left), end));
    assert KeepsAccount(Good(previous), RunSession(name, p, previous, s, now));
    assert KeepsAccount(Good(previous), Do(CopyIn(previous), RunSession(name, p, previous, s, now)));
  }

  lemma AdoptKeepsAccount(auth: CredFile, p: Policy, c: Cred, now: nat)
    requires SameAccount(auth, Good(c))
    ensures KeepsAccount(auth, Adopt(p, c, now))
  {
  }

  lemma ActsKeepAccount(h: Home, name: string, act: Act)
    ensures KeepsAccount(h.auth, MovesOf(h, name, act))
  {
    var moves := MovesOf(h, name, act);
    if moves.Do? {
      match act {
        case Refresh(s, now) =>
          if h.auth.Good? {
            SessionKeepsAccount(name, h.policy, h.auth.cred, s, now);
            if moves.move.Promote? {
              AdoptKeepsAccount(h.auth, h.policy, moves.move.cred, now);
            } else if moves.move.EmptyDir? {
              assert KeepsAccount(h.auth, moves.rest.rest);
              assert KeepsAccount(h.auth, moves.rest);
            }
          }
        case Login(obtained, now) =>
          var c := Good(obtained.value);
          assert KeepsAccount(c, moves.rest.rest.rest);
          assert KeepsAccount(c, moves.rest.rest);
          assert KeepsAccount(c, moves.rest);
        case GiveToBroker => assert KeepsAccount(h.auth, moves.rest);
        case ImportToBroker(_, _) =>
          assert KeepsAccount(h.auth, moves.rest.rest);
          assert KeepsAccount(h.auth, moves.rest);
        case SetAuthority(_) =>
        case SetAutoRefresh(_) =>
      }
    }
  }

  /** Over every run, once the credential file is readable it stays readable, and its known
      email address and account id never change. */
  lemma {:induction false} AccountNeverChanges(h: Home, name: string, evs: seq<Event>)
    ensures SameAccount(h.auth, Run(h, name, evs).auth)
    decreases |evs|
  {
    if evs != [] {
      var ev := evs[0];
      ActsKeepAccount(h, name, ev.act);
      CarryKeepsAccount(h, MovesOf(h, name, ev.act), ev.moves);
      AccountNeverChanges(Step(h, name, ev), name, evs[1..]);
    }
  }
}
