/** One account's calls step by step, with anything allowed between two durable steps: the
    consumer and other accounts may change the directory after a sync has scanned it, a
    file step may fail because of that, and the process may stop.

    A call fixes what it will do from the grant and the directory as it finds them, under
    the account's lock. What happens to the directory afterwards does not change the plan,
    only whether and how its file steps succeed. */
module BrokerInterleaving {
  import opened Basics
  import opened Grants
  import opened CpaDirectory
  import opened BrokerPlans
  import opened BrokerRuns

  /** The account's state, and what the call that holds its lock still has to do. */
  datatype Task = Task(w: World, todo: Plan)

  datatype Move =
    | Start(call: Call)
    | Advance                  // the next durable step
    | Refuse(error: Error)     // the next file step fails
    | Crash
    | Elsewhere(cpa: Directory)

  predicate FileStep(e: Effect) {
    e.CpaRename? || e.CpaWrite?
  }

  /** A file step fails with an I/O error or at a link; a rename also at a taken destination. */
  predicate CanFail(e: Effect, error: Error) {
    (FileStep(e) && error == Storage) || (e.CpaRename? && error == ConsumerConflict)
  }

  /** The sync gives up its file work and records why. */
  function GiveUp(t: Task, error: Error): Task {
    if t.w.slot.canonical.Some? then t.(todo := FinishSync(t.w.slot.canonical.value, Some(error))) else t
  }

  /** A rename whose file has gone meanwhile is an error. */
  predicate Vanished(t: Task) {
    t.todo.Then? && t.todo.effect.CpaRename? && t.todo.effect.from !in t.w.cpa
  }

  function MoveOne(t: Task, key: string, m: Move): Task {
    match m
    case Start(call) => if t.todo.Return? then Task(t.w, PlanOf(t.w, key, call)) else t
    case Advance =>
      if t.todo.Return? then t
      else if Vanished(t) then GiveUp(t, Storage)
      else Task(Apply(t.w, t.todo.effect), t.todo.rest)
    case Refuse(error) => if t.todo.Then? && CanFail(t.todo.effect, error) then GiveUp(t, error) else t
    case Crash => Task(t.w, Return(Err(Storage)))
    case Elsewhere(cpa) => t.(w := t.w.(cpa := cpa))
  }

  function MoveAll(t: Task, key: string, moves: seq<Move>): Task
    decreases |moves|
  {
    if moves == [] then t else MoveAll(MoveOne(t, key, moves[0]), key, moves[1..])
  }

  function Idle(w: World): Task {
    Task(w, Return(Err(Storage)))
  }

  /** New tokens are new, and a sync sees the whole directory. */
  predicate HonestStart(t: Task, key: string, m: Move) {
    m.Start? && t.todo.Return? ==> HonestCall(t.w, key, Perform(m.call, 0))
  }

  predicate HonestStarts(t: Task, key: string, moves: seq<Move>)
    decreases |moves|
  {
    moves != [] ==> HonestStart(t, key, moves[0]) && HonestStarts(MoveOne(t, key, moves[0]), key, moves[1..])
  }

  /** The outside world also keeps to its part of the directory. */
  predicate HonestMove(t: Task, key: string, m: Move) {
    HonestStart(t, key, m) && (m.Elsewhere? ==> OutsideAllowed(t.w.cpa, m.cpa, key))
  }

  predicate HonestMoves(t: Task, key: string, moves: seq<Move>)
    decreases |moves|
  {
    moves != [] ==> HonestMove(t, key, moves[0]) && HonestMoves(MoveOne(t, key, moves[0]), key, moves[1..])
  }

  // ----- Parts of a plan -----

  /** What is left of a plan after `n` steps. */
  function After(plan: Plan, n: nat): Plan
    decreases plan
  {
    if plan.Return? || n == 0 then plan else After(plan.rest, n - 1)
  }

  lemma {:induction false} OneMore(w: World, plan: Plan, n: nat)
    requires After(plan, n).Then?
    ensures RunPlan(w, plan, n + 1) == Apply(RunPlan(w, plan, n), After(plan, n).effect)
    ensures After(plan, n + 1) == After(plan, n).rest
    decreases plan
  {
    if n == 0 {
      assert RunPlan(Apply(w, plan.effect), plan.rest, 0) == Apply(w, plan.effect);
      assert After(plan.rest, 0) == plan.rest;
    } else {
      OneMore(Apply(w, plan.effect), plan.rest, n - 1);
    }
  }

  lemma {:induction false} LawfulAfter(w: World, key: string, plan: Plan, n: nat)
    requires Lawful(w, key, plan)
    ensures Lawful(RunPlan(w, plan, n), key, After(plan, n))
    decreases plan
  {
    if plan.Then? && n != 0 {
      LawfulAfter(Apply(w, plan.effect), key, plan.rest, n - 1);
    }
  }

  lemma {:induction false} PrependedPlan(w: World, steps: seq<Effect>, plan: Plan, n: nat)
    requires n <= |steps|
    ensures After(Prepend(steps, plan), n) == Prepend(steps[n..], plan)
    ensures forall more: seq<Effect>, other: Plan ::
              RunPlan(w, Prepend(steps[..n] + more, other), n) == RunPlan(w, Prepend(steps, plan), n)
    decreases n
  {
    if n != 0 {
      var w1 := Apply(w, steps[0]);
      PrependedPlan(w1, steps[1..], plan, n - 1);
      assert steps[1..][n - 1..] == steps[n..];
      forall more: seq<Effect>, other: Plan
        ensures RunPlan(w, Prepend(steps[..n] + more, other), n) == RunPlan(w, Prepend(steps, plan), n)
      {
        assert (steps[..n] + more)[1..] == steps[1..][..n - 1] + more;
      }
    }
  }

  // ----- What the outside world may do, step by step -----

  lemma {:induction false} OutsideAllowedTwice(a: Directory, b: Directory, c: Directory, key: string)
    requires OutsideAllowed(a, b, key) && OutsideAllowed(b, c, key)
    ensures OutsideAllowed(a, c, key)
  {
  }

  lemma OutsideMayRest(cpa: Directory, key: string)
    ensures OutsideAllowed(cpa, cpa, key)
  {
  }

  /** A step that is legal in the directory as scanned does no more harm in a directory from
      which the outside world has meanwhile taken something. */
  lemma StaleStep(w: World, key: string, e: Effect, cpa: Directory)
    requires Legal(w, key, e) && OutsideAllowed(w.cpa, cpa, key)
    requires e.CpaRename? ==> e.from in cpa
    ensures OutsideAllowed(ApplyToDirectory(w.cpa, e), ApplyToDirectory(cpa, e), key)
  {
  }

  // ----- Simulation -----

  /** The call in progress, begun in the state `b` and `n` steps on. */
  datatype Pending = Nothing | Doing(call: Call, n: nat)

  function Commit(p: Pending): seq<Event> {
    if p.Nothing? then [] else [Perform(p.call, p.n)]
  }

  /** The run so far, the call in progress included. */
  function SoFar(start: World, key: string, evs: seq<Event>, p: Pending): World {
    var b := Run(start, key, evs);
    if p.Nothing? then b else RunPlan(b, PlanOf(b, key, p.call), p.n)
  }

  /** The interleaved state is that of a run of whole calls, the directory apart. */
  predicate Simulates(start: World, key: string, t: Task, evs: seq<Event>, p: Pending) {
    var b, w := Run(start, key, evs), SoFar(start, key, evs, p);
    && HonestCallRun(start, key, evs)
    && t.w.slot == w.slot && t.w.log == w.log
    && if p.Nothing? then t.todo.Return?
       else HonestCall(b, key, Perform(p.call, p.n)) && (t.todo == After(PlanOf(b, key, p.call), p.n) || t.todo.Return?)
  }

  /** The directories, too, differ only by what the outside world may do. */
  predicate Tame(start: World, key: string, t: Task, evs: seq<Event>, p: Pending) {
    HonestRun(start, key, evs) && OutsideAllowed(SoFar(start, key, evs, p).cpa, t.w.cpa, key)
  }

  lemma CommitSettles(start: World, key: string, t: Task, evs: seq<Event>, p: Pending)
    requires Simulates(start, key, t, evs, p)
    ensures var all := evs + Commit(p) + [Outside(t.w.cpa)];
            && HonestCallRun(start, key, all) && Run(start, key, all) == t.w
            && (Tame(start, key, t, evs, p) ==> HonestRun(start, key, all))
  {
    var b := Run(start, key, evs);
    var done := evs + Commit(p);
    RunJoins(start, key, evs, Commit(p));
    if p.Doing? {
      OneEvent(b, key, Perform(p.call, p.n));
    }
    RunJoins(start, key, done, [Outside(t.w.cpa)]);
    OneEvent(Run(start, key, done), key, Outside(t.w.cpa));
  }

  lemma OneEvent(w: World, key: string, ev: Event)
    ensures Run(w, key, [ev]) == Step(w, key, ev)
    ensures HonestRun(w, key, [ev]) == Honest(w, key, ev)
    ensures HonestCallRun(w, key, [ev]) == HonestCall(w, key, ev)
  {
    var w' := Step(w, key, ev);
    assert [ev][1..] == [] && Run(w, key, [ev]) == Run(w', key, []);
    assert HonestRun(w', key, []) && HonestCallRun(w', key, []);
  }

  // ----- What calls were made -----

  /** A call without what goes wrong in it. */
  function Asked(call: Call): Call {
    if call.Sync? then call.(fault := NoFault) else call
  }

  function CallsOf(evs: seq<Event>): seq<Call> {
    if evs == [] then []
    else CallsOf(evs[..|evs| - 1]) + (if evs[|evs| - 1].Perform? then [Asked(evs[|evs| - 1].call)] else [])
  }

  function CallsIn(evs: seq<Event>, p: Pending): seq<Call> {
    CallsOf(evs) + (if p.Doing? then [Asked(p.call)] else [])
  }

  /** The calls that found the account free. */
  function Started(t: Task, key: string, moves: seq<Move>): seq<Call>
    decreases |moves|
  {
    if moves == [] then []
    else (if moves[0].Start? && t.todo.Return? then [Asked(moves[0].call)] else [])
         + Started(MoveOne(t, key, moves[0]), key, moves[1..])
  }

  lemma CallsSnoc(evs: seq<Event>, ev: Event)
    ensures CallsOf(evs + [ev]) == CallsOf(evs) + (if ev.Perform? then [Asked(ev.call)] else [])
  {
    assert (evs + [ev])[..|evs|] == evs;
  }

  lemma CallsCommitted(evs: seq<Event>, p: Pending, cpa: Directory)
    ensures CallsOf(evs + Commit(p) + [Outside(cpa)]) == CallsIn(evs, p)
  {
    CallsSnoc(evs + Commit(p), Outside(cpa));
    if p.Doing? {
      CallsSnoc(evs, Perform(p.call, p.n));
    } else {
      assert evs + Commit(p) == evs;
    }
  }

  // ----- A failed file step is a fault of the call -----

  /** Had the fault been part of the call, the file work would have stopped right there. */
  lemma FaultInstead(cpa: Directory, key: string, g: Grant, found: Found, now: nat, fault: Fault, n: nat, error: Error)
    returns (fault': Fault)
    requires var steps := FileWorkFor(cpa, key, g, found, now, fault).steps;
             n < |steps| && CanFail(steps[n], error)
    ensures FileWorkFor(cpa, key, g, found, now, fault') ==
              FileWork(FileWorkFor(cpa, key, g, found, now, fault).steps[..n], Some(error))
  {
    var steps := FileWorkFor(cpa, key, g, found, now, fault).steps;
    fault' := if steps[n].CpaWrite? then WriteRefused
              else if error == ConsumerConflict then DestinationTaken
              else RenameRefused;
  }

  /** A plan that only keeps books. */
  predicate BooksOnly(plan: Plan) {
    plan.Then? ==> !FileStep(plan.effect) && plan.rest.Return?
  }

  lemma BooksHaveNoFileStep(plan: Plan, n: nat)
    requires BooksOnly(plan)
    ensures After(plan, n).Then? ==> !FileStep(After(plan, n).effect)
  {
    if plan.Then? && n != 0 {
      assert After(plan, n) == After(plan.rest, n - 1) == plan.rest;
    }
  }

  lemma {:induction false} FileStepComesFirst(steps: seq<Effect>, finish: Plan, n: nat)
    requires BooksOnly(finish) && After(Prepend(steps, finish), n).Then?
    requires FileStep(After(Prepend(steps, finish), n).effect)
    ensures n < |steps| && After(Prepend(steps, finish), n).effect == steps[n]
    decreases |steps|
  {
    if steps == [] {
      BooksHaveNoFileStep(finish, n);
    } else if n != 0 {
      FileStepComesFirst(steps[1..], finish, n - 1);
    }
  }

  lemma {:induction false} FileStepsKeepTheSlot(w: World, steps: seq<Effect>, finish: Plan, n: nat)
    requires n <= |steps| && forall e | e in steps :: FileStep(e)
    ensures RunPlan(w, Prepend(steps, finish), n).slot == w.slot
    decreases n
  {
    if n != 0 {
      assert steps[0] in steps && forall e | e in steps[1..] :: e in steps;
      FileStepsKeepTheSlot(Apply(w, steps[0]), steps[1..], finish, n - 1);
    }
  }

  /** The sync that stops at its `n`-th step, as a sync with a fault of its own. */
  lemma SyncStopsThere(w: World, key: string, dir: DirectoryState, now: nat, fault: Fault, n: nat, error: Error)
    returns (fault': Fault)
    requires var left := After(SyncPlan(w.slot, w.cpa, key, dir, now, fault), n);
             left.Then? && CanFail(left.effect, error)
    ensures w.slot.canonical.Some?
    ensures var plan, plan' := SyncPlan(w.slot, w.cpa, key, dir, now, fault), SyncPlan(w.slot, w.cpa, key, dir, now, fault');
            && RunPlan(w, plan', n) == RunPlan(w, plan, n)
            && After(plan', n) == FinishSync(w.slot.canonical.value, Some(error))
            && RunPlan(w, plan, n).slot == w.slot
  {
    var plan := SyncPlan(w.slot, w.cpa, key, dir, now, fault);
    BooksHaveNoFileStep(if BooksOnly(plan) then plan else Return(Err(error)), n);
    var g := w.slot.canonical.value;
    var work := ProjectWork(w.cpa, key, g, dir, now, fault);
    var finish, finish' := FinishSync(g, work.error), FinishSync(g, Some(error));
    FileStepComesFirst(work.steps, finish, n);
    FileStepsOnly(w.cpa, key, g, dir, now, fault);
    FileStepsKeepTheSlot(w, work.steps, finish, n);
    fault' := FaultInstead(w.cpa, key, g, Scan(dir.names, w.cpa, key, g).value, now, fault, n, error);
    var front := work.steps[..n];
    PrependedPlan(w, work.steps, finish, n);
    assert front + [] == front;
    PrependedPlan(w, front, finish', n);
    assert front[n..] == [] && front[..n] == front;
    assert RunPlan(w, Prepend(front + [], finish'), n) == RunPlan(w, Prepend(work.steps, finish), n);
  }

  predicate Fileless(plan: Plan)
    decreases plan
  {
    plan.Then? ==> !FileStep(plan.effect) && Fileless(plan.rest)
  }

  lemma {:induction false} FilelessAfter(plan: Plan, n: nat)
    requires Fileless(plan)
    ensures Fileless(After(plan, n))
    decreases plan
  {
    if plan.Then? && n != 0 {
      FilelessAfter(plan.rest, n - 1);
    }
  }

  lemma RecordIsFileless(c: Grant, force: bool, now: nat, reply: Reply)
    ensures Fileless(RecordReply(c, force, now, reply))
  {
    var recorded := RecordReply(c, force, now, reply);
    if recorded.rest.Then? {
      assert Fileless(recorded.rest.rest.rest);
      assert Fileless(recorded.rest.rest);
      assert Fileless(recorded.rest);
    }
  }

  lemma RefreshIsFileless(slot: Slot, force: bool, now: nat, reply: Reply)
    ensures Fileless(RefreshPlan(slot, force, now, reply))
  {
    var plan := RefreshPlan(slot, force, now, reply);
    if plan.Then? && plan.effect.SaveIntent? {
      var recorded := RecordReply(plan.effect.grant, force, now, reply);
      RecordIsFileless(plan.effect.grant, force, now, reply);
      assert plan.rest == if reply.NoClient? then recorded else Then(Send(plan.effect.grant.refreshToken, now), recorded);
    } else if plan.Then? && plan.rest.Then? {
      assert Fileless(plan.rest.rest);
    }
  }

  lemma CallIsFileless(w: World, key: string, call: Call)
    requires call.Sync? ==> BooksOnly(PlanOf(w, key, call))
    ensures Fileless(PlanOf(w, key, call))
  {
    var plan := PlanOf(w, key, call);
    match call {
      case Refresh(force, now, reply) => RefreshIsFileless(w.slot, force, now, reply);
      case Import(_, _) =>
        if plan.Then? && plan.rest.Then? {
          assert Fileless(plan.rest.rest);
        }
      case SetCpa(_, _) =>
      case Acknowledge(_) =>
      case Sync(_, _, _) =>
    }
  }

  /** Only a sync has file steps. */
  lemma OnlySyncsTouchFiles(w: World, key: string, call: Call, n: nat)
    ensures var left := After(PlanOf(w, key, call), n);
            left.Then? && FileStep(left.effect) ==> call.Sync?
  {
    if !call.Sync? {
      CallIsFileless(w, key, call);
      FilelessAfter(PlanOf(w, key, call), n);
    }
  }

  // ----- One move -----

  lemma GivingUpIsSimulated(start: World, key: string, t: Task, evs: seq<Event>, p: Pending, error: Error)
    returns (p': Pending)
    requires Keyed(start, key) && Simulates(start, key, t, evs, p)
    requires t.todo.Then? && CanFail(t.todo.effect, error)
    ensures Simulates(start, key, GiveUp(t, error), evs, p')
    ensures Tame(start, key, t, evs, p) ==> Tame(start, key, GiveUp(t, error), evs, p')
    ensures CallsIn(evs, p') == CallsIn(evs, p)
  {
    var b := Run(start, key, evs);
    OnlySyncsTouchFiles(b, key, p.call, p.n);
    var dir, now := p.call.dir, p.call.now;
    var fault' := SyncStopsThere(b, key, dir, now, p.call.fault, p.n, error);
    p' := Doing(Sync(dir, now, fault'), p.n);
  }

  lemma AdvancingIsSimulated(start: World, key: string, t: Task, evs: seq<Event>, p: Pending)
    returns (p': Pending)
    requires Keyed(start, key) && Simulates(start, key, t, evs, p) && t.todo.Then? && !Vanished(t)
    ensures Simulates(start, key, MoveOne(t, key, Advance), evs, p')
    ensures Tame(start, key, t, evs, p) ==> Tame(start, key, MoveOne(t, key, Advance), evs, p')
    ensures CallsIn(evs, p') == CallsIn(evs, p)
  {
    var b := Run(start, key, evs);
    var plan := PlanOf(b, key, p.call);
    OneMore(b, plan, p.n);
    p' := Doing(p.call, p.n + 1);
    if Tame(start, key, t, evs, p) {
      RunKeepsKey(start, key, evs);
      CallsAreLawful(b, key, p.call, p.n);
      LawfulAfter(b, key, plan, p.n);
      StaleStep(RunPlan(b, plan, p.n), key, t.todo.effect, t.w.cpa);
    }
  }

  lemma {:induction false} RunKeepsKey(w: World, key: string, evs: seq<Event>)
    requires Keyed(w, key) && HonestCallRun(w, key, evs)
    ensures Keyed(Run(w, key, evs), key)
    decreases |evs|
  {
    if evs != [] {
      var ev := evs[0];
      if ev.Perform? {
        CallsAreLawful(w, key, ev.call, ev.steps);
        PlanKeepsKey(w, key, PlanOf(w, key, ev.call), ev.steps);
      }
      RunKeepsKey(Step(w, key, ev), key, evs[1..]);
    }
  }

  lemma StartIsSimulated(start: World, key: string, t: Task, evs: seq<Event>, p: Pending, call: Call)
    returns (evs': seq<Event>, p': Pending)
    requires Simulates(start, key, t, evs, p) && t.todo.Return? && HonestStart(t, key, Start(call))
    ensures Simulates(start, key, MoveOne(t, key, Start(call)), evs', p')
    ensures Tame(start, key, t, evs, p) ==> Tame(start, key, MoveOne(t, key, Start(call)), evs', p')
    ensures CallsIn(evs', p') == CallsIn(evs, p) + [Asked(call)]
  {
    evs', p' := evs + Commit(p) + [Outside(t.w.cpa)], Doing(call, 0);
    CommitSettles(start, key, t, evs, p);
    CallsCommitted(evs, p, t.w.cpa);
    OutsideMayRest(t.w.cpa, key);
  }

  lemma MoveIsSimulated(start: World, key: string, t: Task, evs: seq<Event>, p: Pending, m: Move)
    returns (evs': seq<Event>, p': Pending)
    requires Keyed(start, key) && Simulates(start, key, t, evs, p) && HonestStart(t, key, m)
    ensures Simulates(start, key, MoveOne(t, key, m), evs', p')
    ensures Tame(start, key, t, evs, p) && HonestMove(t, key, m) ==> Tame(start, key, MoveOne(t, key, m), evs', p')
    ensures CallsIn(evs', p') == CallsIn(evs, p) + (if m.Start? && t.todo.Return? then [Asked(m.call)] else [])
  {
    evs', p' := evs, p;
    match m {
      case Start(call) =>
        if t.todo.Return? {
          evs', p' := StartIsSimulated(start, key, t, evs, p, call);
        }
      case Advance =>
        if Vanished(t) {
          p' := GivingUpIsSimulated(start, key, t, evs, p, Storage);
        } else if t.todo.Then? {
          p' := AdvancingIsSimulated(start, key, t, evs, p);
        }
      case Refuse(error) =>
        if t.todo.Then? && CanFail(t.todo.effect, error) {
          p' := GivingUpIsSimulated(start, key, t, evs, p, error);
        }
      case Crash =>
      case Elsewhere(cpa) =>
        if Tame(start, key, t, evs, p) && HonestMove(t, key, m) {
          OutsideAllowedTwice(SoFar(start, key, evs, p).cpa, t.w.cpa, cpa, key);
        }
    }
  }

  // ----- All moves -----

  lemma Regroup(a: seq<Call>, b: seq<Call>, c: seq<Call>)
    ensures (a + b) + c == a + (b + c)
  {
  }

  lemma MovesUnfold(t: Task, key: string, moves: seq<Move>)
    requires moves != []
    ensures var t1 := MoveOne(t, key, moves[0]);
            && MoveAll(t, key, moves) == MoveAll(t1, key, moves[1..])
            && (HonestMoves(t, key, moves) ==> HonestMove(t, key, moves[0]) && HonestMoves(t1, key, moves[1..]))
            && Started(t, key, moves) ==
                 (if moves[0].Start? && t.todo.Return? then [Asked(moves[0].call)] else [])
                 + Started(t1, key, moves[1..])
  {
  }

  lemma {:induction false} MovesAreSimulated(start: World, key: string, t: Task, evs: seq<Event>, p: Pending,
                                             moves: seq<Move>)
    returns (evs': seq<Event>, p': Pending)
    requires Keyed(start, key) && Simulates(start, key, t, evs, p) && HonestStarts(t, key, moves)
    ensures Simulates(start, key, MoveAll(t, key, moves), evs', p')
    ensures Tame(start, key, t, evs, p) && HonestMoves(t, key, moves) ==>
              Tame(start, key, MoveAll(t, key, moves), evs', p')
    ensures CallsIn(evs', p') == CallsIn(evs, p) + Started(t, key, moves)
    decreases |moves|
  {
    evs', p' := evs, p;
    if moves != [] {
      var t1 := MoveOne(t, key, moves[0]);
      var evs1, p1 := MoveIsSimulated(start, key, t, evs, p, moves[0]);
      evs', p' := MovesAreSimulated(start, key, t1, evs1, p1, moves[1..]);
      MovesUnfold(t, key, moves);
      var first := if moves[0].Start? && t.todo.Return? then [Asked(moves[0].call)] else [];
      Regroup(CallsIn(evs, p), first, Started(t1, key, moves[1..]));
    }
  }

  lemma IdleIsSimulated(w: World, key: string)
    ensures Simulates(w, key, Idle(w), [], Nothing) && Tame(w, key, Idle(w), [], Nothing)
  {
    OutsideMayRest(w.cpa, key);
  }

  /** Whatever happens to the directory between a sync's scan and its steps, and wherever a
      call stops, the account is in a state that a run of the same calls reaches, one after
      another and each cut off after some step, with the outside world in between: so every
      property of those runs holds of the interleaved ones. If the outside world kept to its
      part of the directory in the one, it does so in the other. */
  lemma InterleavedRunIsARun(start: World, key: string, moves: seq<Move>) returns (evs: seq<Event>)
    requires Keyed(start, key) && HonestStarts(Idle(start), key, moves)
    ensures HonestCallRun(start, key, evs) && Run(start, key, evs) == MoveAll(Idle(start), key, moves).w
    ensures HonestMoves(Idle(start), key, moves) ==> HonestRun(start, key, evs)
    ensures CallsOf(evs) == Started(Idle(start), key, moves)
  {
    IdleIsSimulated(start, key);
    var evs', p := MovesAreSimulated(start, key, Idle(start), [], Nothing, moves);
    var t := MoveAll(Idle(start), key, moves);
    CommitSettles(start, key, t, evs', p);
    CallsCommitted(evs', p, t.w.cpa);
    evs := evs' + Commit(p) + [Outside(t.w.cpa)];
  }
}
