/** Who the desktop's refresh authority is, over every run of its operations. */
module LocalPolicy {
  import opened Basics
  import opened LocalAuth
  import opened HandoverSafety

  /** Automatic refresh is on only while NoTrace is the authority. */
  predicate Governed(p: Policy) {
    p.enabled ==> p.authority.NoTrace?
  }

  /** Every policy saved names one of these authorities, and a credential leaves for the
      Broker only while the Broker is the authority and automatic refresh is off. */
  predicate Orderly(p: Policy, moves: Moves, authorities: set<Authority>)
    decreases moves
  {
    moves.Do? ==>
      match moves.move
      case SavePolicy(q) => q.authority in authorities && Governed(q) && Orderly(q, moves.rest, authorities)
      case HandOff(_) => p.authority.Broker? && !p.enabled && Orderly(p, moves.rest, authorities)
      case _ => Orderly(p, moves.rest, authorities)
  }

  /** The authorities an operation may record. */
  function MayRecord(h: Home, act: Act): set<Authority> {
    var own := h.policy.authority;
    match act
    case Refresh(_, _) => {own}
    case Login(_, _) => {NoTrace}
    case GiveToBroker => if h.auth.Good? && own in {NoTrace, Broker} then {Broker} else {}
    case ImportToBroker(_, _) => if own in {NoTrace, Broker} then {Broker} else {}
    case SetAuthority(authority) => if h.auth.Good? && (own.Broker? ==> authority.Broker?) then {authority} else {}
    case SetAutoRefresh(_) => {own}
  }

  lemma ConcludeIsOrderly(name: string, p: Policy, previous: Cred, s: Session, now: nat)
    requires Governed(p)
    ensures Orderly(p, Conclude(name, p, previous, s, now), {p.authority})
  {
    var moves := Conclude(name, p, previous, s, now);
    if moves.Do? && moves.move.Promote? {
      AdoptIsOrderly(p, moves.move.cred, now);
    } else if moves.Do? && moves.move.EmptyDir? {
      assert Orderly(p, moves.rest.rest, {p.authority});
      assert Orderly(p, moves.rest, {p.authority});
    }
  }

  lemma AdoptIsOrderly(p: Policy, c: Cred, now: nat)
    requires Governed(p)
    ensures Orderly(p, Adopt(p, c, now), {p.authority})
  {
    var q := SuccessPolicy(p, false, now);
    assert Orderly(q, Do(RemoveDir, Done), {p.authority});
    assert Orderly(q, Sweep(Done), {p.authority});
    assert Orderly(p, Do(SavePolicy(q), Sweep(Done)), {p.authority});
  }

  lemma SessionIsOrderly(name: string, p: Policy, previous: Cred, s: Session, now: nat)
    requires Governed(p)
    ensures Orderly(p, StartSession(name, p, previous, s, now), {p.authority})
  {
    var end := Conclude(name, p, previous, s, now);
    ConcludeIsOrderly(name, p, previous, s, now);
    assert Orderly(p, Do(Leave(s.left), end), {p.authority});
    assert Orderly(p, RunSession(name, p, previous, s, now), {p.authority});
    assert Orderly(p, Do(CopyIn(previous), RunSession(name, p, previous, s, now)), {p.authority});
  }

  /** What an operation may do to the policy, and when it lets a credential go. */
  lemma ActIsOrderly(h: Home, name: string, act: Act)
    requires Governed(h.policy)
    ensures Orderly(h.policy, MovesOf(h, name, act), MayRecord(h, act))
  {
    var p, moves, allowed := h.policy, MovesOf(h, name, act), MayRecord(h, act);
    if act.Refresh? && h.auth.Good? {
      SessionIsOrderly(name, p, h.auth.cred, act.session, act.now);
      if moves.Do? && moves.move.EmptyDir? {
        assert Orderly(p, moves.rest.rest, allowed);
        assert Orderly(p, moves.rest, allowed);
      } else if moves.Do? && moves.move.Promote? {
        AdoptIsOrderly(p, moves.move.cred, act.now);
      }
    } else if act.Login? && moves.Do? {
      var done := SuccessPolicy(p.(authority := NoTrace), true, act.now);
      assert Orderly(done, Do(RemoveDir, Done), allowed);
      assert Orderly(done, moves.rest.rest.rest, allowed);
      assert Orderly(p.(authority := NoTrace), moves.rest.rest, allowed);
      assert Orderly(p, moves.rest, allowed);
    } else if moves.Do? && moves.rest.Do? {
      var frozen := p.(authority := Broker, enabled := false);
      assert moves.rest.rest.Do? ==> Orderly(frozen, moves.rest.rest, allowed);
      assert Orderly(frozen, moves.rest, allowed);
    }
  }

  /** A credential that left for the Broker did so while refresh was frozen. */
  predicate LeftFrozen(h: Home, moves: Moves)
    decreases moves
  {
    moves.Do? ==>
      && (moves.move.HandOff? ==> h.policy.authority.Broker? && !h.policy.enabled)
      && LeftFrozen(Apply(h, moves.move), moves.rest)
  }

  lemma {:induction false} OrderlyMovesLeaveFrozen(h: Home, moves: Moves, authorities: set<Authority>)
    requires Orderly(h.policy, moves, authorities)
    ensures LeftFrozen(h, moves)
    decreases moves
  {
    if moves.Do? {
      OrderlyMovesLeaveFrozen(Apply(h, moves.move), moves.rest, authorities);
    }
  }

  lemma {:induction false} OrderlyMovesGovern(h: Home, moves: Moves, n: nat, authorities: set<Authority>)
    requires Governed(h.policy) && Orderly(h.policy, moves, authorities)
    ensures var p := Carry(h, moves, n).policy;
            Governed(p) && (p == h.policy || p.authority in authorities)
    decreases moves
  {
    if moves.Do? && n != 0 {
      OrderlyMovesGovern(Apply(h, moves.move), moves.rest, n - 1, authorities);
    }
  }

  /** Whenever an operation hands a credential to the Broker, its own or one from a file, the
      Broker already is the recorded authority and automatic refresh is off. */
  lemma FrozenBeforeItLeaves(h: Home, name: string, act: Act)
    requires Governed(h.policy)
    ensures LeftFrozen(h, MovesOf(h, name, act))
  {
    ActIsOrderly(h, name, act);
    OrderlyMovesLeaveFrozen(h, MovesOf(h, name, act), MayRecord(h, act));
  }

  /** Over every run, automatic refresh is on only while NoTrace is the authority. */
  lemma {:induction false} EnabledOnlyUnderNoTrace(h: Home, name: string, evs: seq<Event>)
    requires Governed(h.policy)
    ensures Governed(Run(h, name, evs).policy)
    decreases |evs|
  {
    if evs != [] {
      var ev := evs[0];
      ActIsOrderly(h, name, ev.act);
      OrderlyMovesGovern(h, MovesOf(h, name, ev.act), ev.moves, MayRecord(h, ev.act));
      EnabledOnlyUnderNoTrace(Step(h, name, ev), name, evs[1..]);
    }
  }

  /** The authority changes only in a login, which makes it NoTrace; in passing a credential to
      the Broker, which NoTrace alone can do; or on request, while the credential file is
      readable and never away from the Broker. */
  lemma AuthorityChangesOnlyIf(h: Home, name: string, ev: Event)
    requires Governed(h.policy)
    requires Step(h, name, ev).policy.authority != h.policy.authority
    ensures var next := Step(h, name, ev).policy.authority;
            match ev.act
            case Login(_, _) => next.NoTrace?
            case GiveToBroker => h.auth.Good? && h.policy.authority.NoTrace? && next.Broker?
            case ImportToBroker(_, _) => h.policy.authority.NoTrace? && next.Broker?
            case SetAuthority(authority) => h.auth.Good? && !h.policy.authority.Broker? && next == authority
            case Refresh(_, _) => false
            case SetAutoRefresh(_) => false
  {
    ActIsOrderly(h, name, ev.act);
    OrderlyMovesGovern(h, MovesOf(h, name, ev.act), ev.moves, MayRecord(h, ev.act));
  }
}
