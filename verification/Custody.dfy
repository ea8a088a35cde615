/** The desktop and the Broker together. They share no file; what passes between them is the
    handed-over credential, which may arrive late, more than once, or not at all. */
module Custody {
  import opened Basics
  import opened Grants
  import opened BrokerPlans
  import opened BrokerRuns
  import Desktop = LocalAuth
  import Handover = HandoverSafety

  // ----- What the Broker holds -----

  function TokenOf(g: Option<Grant>): set<string> {
    if g.Some? then {g.value.refreshToken} else {}
  }

  /** Refresh tokens in the account's files, and all that were ever sent. */
  function Held(w: World): set<string> {
    TokenOf(w.slot.canonical) + TokenOf(w.slot.journal) + SentTokens(w.log)
  }

  /** Refresh tokens a call brings in from outside. */
  function Brought(call: Call): set<string> {
    match call
    case Import(body, _) => if body.Fields? && body.refresh.Some? then {body.refresh.value} else {}
    case Refresh(_, _, reply) => if reply.Tokens? && reply.refresh.Some? then {reply.refresh.value} else {}
    case _ => {}
  }

  predicate StepWithin(e: Effect, tokens: set<string>) {
    && (e.SavesCanonical() || e.SaveJournal? ==> e.grant.refreshToken in tokens)
    && (e.Send? ==> e.token in tokens)
  }

  predicate PlanWithin(plan: Plan, tokens: set<string>)
    decreases plan
  {
    plan.Then? ==> StepWithin(plan.effect, tokens) && PlanWithin(plan.rest, tokens)
  }

  lemma {:induction false} PlanHolds(w: World, plan: Plan, n: nat, tokens: set<string>)
    requires Held(w) <= tokens && PlanWithin(plan, tokens)
    ensures Held(RunPlan(w, plan, n)) <= tokens
    decreases plan
  {
    if plan.Then? && n != 0 {
      SentGrows(w.log, plan.effect);
      PlanHolds(Apply(w, plan.effect), plan.rest, n - 1, tokens);
    }
  }

  lemma RecordWithin(c: Grant, force: bool, now: nat, reply: Reply, tokens: set<string>)
    requires {c.refreshToken} + Brought(Refresh(force, now, reply)) <= tokens
    ensures PlanWithin(RecordReply(c, force, now, reply), tokens)
  {
    var plan := RecordReply(c, force, now, reply);
    if plan.rest.Then? {
      assert PlanWithin(plan.rest.rest.rest, tokens);
      assert PlanWithin(plan.rest.rest, tokens);
      assert PlanWithin(plan.rest, tokens);
    }
  }

  lemma RefreshWithin(w: World, force: bool, now: nat, reply: Reply, tokens: set<string>)
    requires Held(w) + Brought(Refresh(force, now, reply)) <= tokens
    ensures PlanWithin(RefreshPlan(w.slot, force, now, reply), tokens)
  {
    var plan := RefreshPlan(w.slot, force, now, reply);
    if plan.Then? {
      if plan.effect.SaveIntent? {
        var flying := plan.effect.grant;
        RecordWithin(flying, force, now, reply, tokens);
        if !reply.NoClient? {
          assert plan.rest == Then(Send(flying.refreshToken, now), RecordReply(flying, force, now, reply));
        }
      } else if plan.rest.Then? {
        assert PlanWithin(plan.rest.rest, tokens);
        assert PlanWithin(plan.rest, tokens);
      }
    }
  }

  lemma {:induction false} PrependWithin(steps: seq<Effect>, plan: Plan, tokens: set<string>)
    requires PlanWithin(plan, tokens) && forall e | e in steps :: e.CpaRename? || e.CpaWrite?
    ensures PlanWithin(Prepend(steps, plan), tokens)
    decreases |steps|
  {
    if steps != [] {
      assert steps[0] in steps && forall e | e in steps[1..] :: e in steps;
      PrependWithin(steps[1..], plan, tokens);
    }
  }

  /** A call handles no token but those the account has and those it brings in. */
  lemma CallWithin(w: World, key: string, call: Call)
    ensures PlanWithin(PlanOf(w, key, call), Held(w) + Brought(call))
  {
    var tokens := Held(w) + Brought(call);
    var plan := PlanOf(w, key, call);
    match call {
      case Refresh(force, now, reply) => RefreshWithin(w, force, now, reply, tokens);
      case Sync(dir, now, fault) =>
        if plan.Then? && !w.slot.canonical.value.Blocked() {
          var g := w.slot.canonical.value;
          var work := ProjectWork(w.cpa, key, g, dir, now, fault);
          FileStepsOnly(w.cpa, key, g, dir, now, fault);
          PrependWithin(work.steps, FinishSync(g, work.error), tokens);
        }
      case Import(_, _) =>
        if plan.Then? && plan.rest.Then? {
          assert PlanWithin(plan.rest.rest, tokens);
        }
      case SetCpa(_, _) =>
      case Acknowledge(_) =>
    }
  }

  // ----- What the desktop has touched -----

  function FileToken(file: Desktop.CredFile): set<string> {
    if file.Good? then {file.cred.refresh} else {}
  }

  function SentByDesktop(log: seq<Desktop.Move>): set<string> {
    set i | 0 <= i < |log| && log[i].Send? :: log[i].token
  }

  /** Refresh tokens in the desktop's files, and all that it ever sent. */
  function Touched(h: Desktop.Home): set<string> {
    FileToken(h.auth) + (if h.work.Dir? then FileToken(h.work.file) else {}) + SentByDesktop(h.log)
  }

  /** Refresh tokens an act brings in from outside. */
  function Obtained(act: Handover.Act): set<string> {
    match act
    case Refresh(session, _) => FileToken(session.left)
    case Login(obtained, _) => if obtained.Some? then {obtained.value.refresh} else {}
    case _ => {}
  }

  predicate MoveWithin(m: Desktop.Move, tokens: set<string>) {
    && (m.Promote? || m.InstallLogin? || m.CopyIn? ==> m.cred.refresh in tokens)
    && (m.Leave? ==> FileToken(m.file) <= tokens)
    && (m.Send? ==> m.token in tokens)
  }

  predicate MovesWithin(moves: Desktop.Moves, tokens: set<string>)
    decreases moves
  {
    moves.Do? ==> MoveWithin(moves.move, tokens) && MovesWithin(moves.rest, tokens)
  }

  lemma SentByDesktopGrows(log: seq<Desktop.Move>, m: Desktop.Move)
    ensures SentByDesktop(log + [m]) <= SentByDesktop(log) + (if m.Send? then {m.token} else {})
  {
  }

  lemma {:induction false} MovesTouch(h: Desktop.Home, moves: Desktop.Moves, n: nat, tokens: set<string>)
    requires Touched(h) <= tokens && MovesWithin(moves, tokens)
    ensures var h' := Desktop.Carry(h, moves, n);
            Touched(h') <= tokens && Handover.HandedOver(h.log) <= Handover.HandedOver(h'.log)
    decreases moves
  {
    if moves.Do? && n != 0 {
      SentByDesktopGrows(h.log, moves.move);
      Handover.HandedOverGrows(h.log, moves.move);
      MovesTouch(Desktop.Apply(h, moves.move), moves.rest, n - 1, tokens);
    }
  }

  lemma SessionWithin(name: string, p: Desktop.Policy, previous: Desktop.Cred, s: Desktop.Session, now: nat,
                      tokens: set<string>)
    requires {previous.refresh} + FileToken(s.left) <= tokens
    ensures MovesWithin(Desktop.StartSession(name, p, previous, s, now), tokens)
  {
    var end := Desktop.Conclude(name, p, previous, s, now);
    assert MovesWithin(end, tokens) by {
      if end.Do? && end.rest.Do? && end.rest.rest.Do? {
        assert MovesWithin(end.rest.rest.rest, tokens);
        assert MovesWithin(end.rest.rest, tokens);
      }
    }
    var tail := Desktop.Do(Desktop.Leave(s.left), end);
    assert MovesWithin(tail, tokens);
    var run := Desktop.RunSession(name, p, previous, s, now);
    assert MovesWithin(run, tokens);
    assert MovesWithin(Desktop.Do(Desktop.CopyIn(previous), run), tokens);
  }

  /** An act handles no token but those the desktop has and those it brings in. */
  lemma ActWithin(h: Desktop.Home, name: string, act: Handover.Act)
    ensures MovesWithin(Handover.MovesOf(h, name, act), Touched(h) + Obtained(act))
  {
    var tokens := Touched(h) + Obtained(act);
    var moves := Handover.MovesOf(h, name, act);
    if act.Refresh? && h.auth.Good? {
      var start := Desktop.StartSession(name, h.policy, h.auth.cred, act.session, act.now);
      SessionWithin(name, h.policy, h.auth.cred, act.session, act.now, tokens);
      if moves.Do? && moves.move.EmptyDir? {
        assert moves.rest.rest == start && MovesWithin(moves.rest, tokens);
      } else if moves.Do? && moves.move.Promote? {
        assert MovesWithin(moves.rest.rest.rest, tokens);
        assert MovesWithin(moves.rest.rest, tokens);
      }
    } else if act.Login? && moves.Do? {
      assert MovesWithin(Desktop.Do(Desktop.RemoveDir, Desktop.Done), tokens);
      assert MovesWithin(moves.rest.rest.rest, tokens);
      assert MovesWithin(moves.rest.rest, tokens);
    } else if moves.Do? && moves.rest.Do? {
      assert MovesWithin(moves.rest.rest, tokens);
    }
  }

  // ----- Both together -----

  datatype Joint = Joint(home: Desktop.Home, world: World)

  datatype JointEvent = AtDesktop(act: Handover.Event) | AtBroker(ev: Event)

  function JointStep(j: Joint, name: string, key: string, ev: JointEvent): Joint {
    match ev
    case AtDesktop(act) => j.(home := Handover.Step(j.home, name, act))
    case AtBroker(e) => j.(world := Step(j.world, key, e))
  }

  function JointRun(j: Joint, name: string, key: string, evs: seq<JointEvent>): Joint
    decreases |evs|
  {
    if evs == [] then j else JointRun(JointStep(j, name, key, evs[0]), name, key, evs[1..])
  }

  /** The Broker imports what the desktop has handed over, at any time after and any number of
      times, or what the desktop never had; and the provider gives neither party a token that
      only the other one has. */
  predicate JointHonest(j: Joint, name: string, ev: JointEvent) {
    match ev
    case AtDesktop(act) =>
      && Handover.Honest(j.home, act.act) && !Handover.Exposing(j.home, name, act)
      && forall t | t in Obtained(act.act) :: t in Touched(j.home) || t !in Held(j.world)
    case AtBroker(Perform(call, _)) =>
      forall t | t in Brought(call) ::
        t in Handover.HandedOver(j.home.log) || t in Held(j.world) || t !in Touched(j.home)
    case AtBroker(Outside(_)) => true
  }

  predicate JointHonestRun(j: Joint, name: string, key: string, evs: seq<JointEvent>)
    decreases |evs|
  {
    evs != [] ==>
      JointHonest(j, name, evs[0]) && JointHonestRun(JointStep(j, name, key, evs[0]), name, key, evs[1..])
  }

  /** The desktop has touched no token of the Broker's that it did not hand over. */
  predicate Apart(j: Joint) {
    forall t | t in Held(j.world) :: t in Handover.HandedOver(j.home.log) || t !in Touched(j.home)
  }

  lemma DesktopStaysApart(j: Joint, name: string, act: Handover.Event)
    requires Apart(j) && JointHonest(j, name, AtDesktop(act))
    ensures Apart(j.(home := Handover.Step(j.home, name, act)))
  {
    ActWithin(j.home, name, act.act);
    MovesTouch(j.home, Handover.MovesOf(j.home, name, act.act), act.moves, Touched(j.home) + Obtained(act.act));
  }

  lemma BrokerStaysApart(j: Joint, name: string, key: string, call: Call, n: nat)
    requires Apart(j) && JointHonest(j, name, AtBroker(Perform(call, n)))
    ensures Apart(j.(world := Step(j.world, key, Perform(call, n))))
  {
    CallWithin(j.world, key, call);
    PlanHolds(j.world, PlanOf(j.world, key, call), n, Held(j.world) + Brought(call));
  }

  /** Every request the desktop made with a token the Broker has or ever sent came before the
      desktop handed that token over. */
  ghost predicate OneAtATime(j: Joint) {
    forall i | 0 <= i < |j.home.log| && j.home.log[i].Send? && j.home.log[i].token in Held(j.world) ::
      exists k | i < k < |j.home.log| :: j.home.log[k] == Desktop.HandOff(j.home.log[i].token)
  }

  lemma ApartMeansOneAtATime(j: Joint)
    requires Apart(j) && Handover.NeverTakenBack(j.home.log)
    ensures OneAtATime(j)
  {
    var log := j.home.log;
    forall i | 0 <= i < |log| && log[i].Send? && log[i].token in Held(j.world)
      ensures exists k | i < k < |log| :: log[k] == Desktop.HandOff(log[i].token)
    {
      assert log[i].token in SentByDesktop(log) && log[i].token in Handover.HandedOver(log);
      var k :| 0 <= k < |log| && log[k].HandOff? && log[k].token == log[i].token;
      assert log[k] == Desktop.HandOff(log[i].token);
    }
  }

  /** In every joint run in which no login stops in the exposing window, whatever replies are
      lost and however late a handed-over credential arrives, no refresh token is ever sent by
      both parties once it was handed over, the Broker's rotated ones included. */
  lemma {:induction false} NoTokenServesBoth(j: Joint, name: string, key: string, evs: seq<JointEvent>)
    requires Handover.Frozen(j.home) && Handover.NeverTakenBack(j.home.log) && Apart(j)
    requires JointHonestRun(j, name, key, evs)
    ensures var j' := JointRun(j, name, key, evs);
            && Handover.Frozen(j'.home) && Handover.NeverTakenBack(j'.home.log) && Apart(j')
            && OneAtATime(j')
    decreases |evs|
  {
    if evs == [] {
      ApartMeansOneAtATime(j);
    } else {
      match evs[0] {
        case AtDesktop(act) =>
          DesktopStaysApart(j, name, act);
          var home := Handover.Step(j.home, name, act);
          assert [act][1..] == [] && Handover.Run(j.home, name, [act]) == Handover.Run(home, name, []);
          assert Handover.SafeRun(home, name, []);
          Handover.HandedOverIsNeverTakenBack(j.home, name, [act]);
        case AtBroker(Perform(call, n)) => BrokerStaysApart(j, name, key, call, n);
        case AtBroker(Outside(_)) =>
      }
      NoTokenServesBoth(JointStep(j, name, key, evs[0]), name, key, evs[1..]);
    }
  }
}
