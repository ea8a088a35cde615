/** All accounts at once: workers, the scheduler and the consumer act in any order, one
    durable step at a time. Each account has its lock; the consumer directory has none. */
module BrokerConcurrency {
  import opened Basics
  import opened Grants
  import opened CpaDirectory
  import opened BrokerPlans
  import opened BrokerRuns
  import opened BrokerSafety
  import opened BrokerInterleaving
  import BrokerFleet

  /** One account's files and history, and what is left of the call that holds its lock. */
  datatype Job = Job(slot: Slot, log: seq<Effect>, todo: Plan)

  datatype Service = Service(jobs: map<string, Job>, cpa: Directory)

  datatype Turn = By(key: string, move: Move) | Consumer(cpa: Directory)

  function TaskIn(f: Service, key: string): Task
    requires key in f.jobs
  {
    Task(World(f.jobs[key].slot, f.cpa, f.jobs[key].log), f.jobs[key].todo)
  }

  function PutTask(f: Service, key: string, t: Task): Service {
    Service(f.jobs[key := Job(t.w.slot, t.w.log, t.todo)], t.w.cpa)
  }

  function TakeTurn(f: Service, turn: Turn): Service {
    match turn
    case By(key, move) => if key in f.jobs then PutTask(f, key, MoveOne(TaskIn(f, key), key, move)) else f
    case Consumer(cpa) => f.(cpa := cpa)
  }

  function TakeTurns(f: Service, turns: seq<Turn>): Service
    decreases |turns|
  {
    if turns == [] then f else TakeTurns(TakeTurn(f, turns[0]), turns[1..])
  }

  // ----- What one account's step is to the others -----

  /** A rename about to happen finds another account's file where its own was. */
  predicate TakesAnothersFile(f: Service, turn: Turn) {
    && turn.By? && turn.move.Advance? && turn.key in f.jobs
    && var todo := f.jobs[turn.key].todo;
       && todo.Then? && todo.effect.CpaRename?
       && exists other | other in f.jobs :: other != turn.key && IsOwnFile(todo.effect.from, f.cpa, other)
  }

  /** What is known of a file step whatever has become of the directory since the scan. */
  predicate OwnStep(e: Effect, key: string) {
    && (e.CpaWrite? ==> IsManaged(e.value, key))
    && (e.CpaRename? ==> HasJsonExtension(e.from) && HasJsonExtension(e.to) && e.from != e.to)
  }

  /** A file step of one account does to another no more than the consumer may do, exactly
      when it does not rename the other's file. */
  lemma StepSparesOtherExactlyWhen(cpa: Directory, e: Effect, key: string, other: string)
    requires OwnStep(e, key) && key != other && AtMostOneOwnFile(cpa, other)
    ensures OutsideAllowed(cpa, ApplyToDirectory(cpa, e), other) <==> !(e.CpaRename? && IsOwnFile(e.from, cpa, other))
  {
    if e.CpaRename? && IsOwnFile(e.from, cpa, other) {
      assert IsOwnFile(e.to, ApplyToDirectory(cpa, e), other) && !IsOwnFile(e.to, cpa, other);
    }
  }

  lemma StepSparesOther(cpa: Directory, e: Effect, key: string, other: string)
    requires OwnStep(e, key) && key != other && !(e.CpaRename? && IsOwnFile(e.from, cpa, other))
    ensures OutsideAllowed(cpa, ApplyToDirectory(cpa, e), other)
  {
  }

  lemma PendingStepIsOwn(start: World, key: string, t: Task, evs: seq<Event>, p: Pending)
    requires Keyed(start, key) && Simulates(start, key, t, evs, p) && t.todo.Then?
    ensures OwnStep(t.todo.effect, key)
  {
    var b := Run(start, key, evs);
    RunKeepsKey(start, key, evs);
    CallsAreLawful(b, key, p.call, p.n);
    LawfulAfter(b, key, PlanOf(b, key, p.call), p.n);
    var w := RunPlan(b, PlanOf(b, key, p.call), p.n);
    assert Legal(w, key, t.todo.effect);
    if w.slot.canonical.Some? {
      CanonicalNameIsScanned(w.slot.canonical.value, key);
    }
  }

  // ----- Every account's part of an interleaving is a run -----

  /** New tokens are new, and a sync sees the whole directory. The consumer may do anything. */
  predicate HonestCallTurn(f: Service, turn: Turn) {
    turn.By? ==> !turn.move.Elsewhere? && (turn.key in f.jobs ==> HonestStart(TaskIn(f, turn.key), turn.key, turn.move))
  }

  predicate HonestCallTurns(f: Service, turns: seq<Turn>)
    decreases |turns|
  {
    turns != [] ==> HonestCallTurn(f, turns[0]) && HonestCallTurns(TakeTurn(f, turns[0]), turns[1..])
  }

  /** The consumer also keeps to its part of the directory, and no stale rename takes another
      account's file. */
  predicate HonestTurn(f: Service, turn: Turn) {
    && HonestCallTurn(f, turn) && !TakesAnothersFile(f, turn)
    && (turn.Consumer? ==> forall key | key in f.jobs :: OutsideAllowed(f.cpa, turn.cpa, key))
  }

  predicate HonestTurns(f: Service, turns: seq<Turn>)
    decreases |turns|
  {
    turns != [] ==> HonestTurn(f, turns[0]) && HonestTurns(TakeTurn(f, turns[0]), turns[1..])
  }

  lemma {:induction false} HonestTurnsHaveHonestCalls(f: Service, turns: seq<Turn>)
    requires HonestTurns(f, turns)
    ensures HonestCallTurns(f, turns)
    decreases |turns|
  {
    if turns != [] {
      HonestTurnsHaveHonestCalls(TakeTurn(f, turns[0]), turns[1..]);
    }
  }

  /** A run of the account's own calls leads to its state; `tame` if the others and the consumer
      did nothing to the directory that the consumer may not do. */
  ghost predicate Reached(start: World, key: string, t: Task, tame: bool) {
    exists evs, p :: Simulates(start, key, t, evs, p) && (tame ==> Tame(start, key, t, evs, p))
  }

  ghost predicate AllReached(first: Service, f: Service, tame: bool) {
    && f.jobs.Keys == first.jobs.Keys
    && forall key | key in first.jobs :: Reached(TaskIn(first, key).w, key, TaskIn(f, key), tame)
  }

  predicate AllKeyed(f: Service) {
    forall key | key in f.jobs :: Keyed(TaskIn(f, key).w, key)
  }

  lemma ReachesNext(start: World, key: string, t: Task, m: Move, tame: bool)
    requires Keyed(start, key) && Reached(start, key, t, tame) && HonestStart(t, key, m)
    requires tame ==> HonestMove(t, key, m)
    ensures Reached(start, key, MoveOne(t, key, m), tame)
  {
    var evs, p :| Simulates(start, key, t, evs, p) && (tame ==> Tame(start, key, t, evs, p));
    var evs', p' := MoveIsSimulated(start, key, t, evs, p, m);
  }

  /** One account's turn leaves the others' files as the consumer might. */
  lemma TurnSparesOthers(first: Service, f: Service, turn: Turn, other: string)
    requires AllKeyed(first) && AllReached(first, f, true) && HonestTurn(f, turn) && other in f.jobs
    requires turn.By? ==> turn.key != other
    ensures OutsideAllowed(f.cpa, TakeTurn(f, turn).cpa, other)
  {
    OutsideMayRest(f.cpa, other);
    if turn.By? && turn.key in f.jobs {
      var t := TaskIn(f, turn.key);
      if turn.move.Advance? && t.todo.Then? && !Vanished(t) {
        var start := TaskIn(first, turn.key).w;
        var evs, p :| Simulates(start, turn.key, t, evs, p);
        PendingStepIsOwn(start, turn.key, t, evs, p);
        StepSparesOther(f.cpa, t.todo.effect, turn.key, other);
      }
    }
  }

  lemma TurnKeepsReached(first: Service, f: Service, turn: Turn, tame: bool)
    requires AllKeyed(first) && AllReached(first, f, tame) && HonestCallTurn(f, turn)
    requires tame ==> HonestTurn(f, turn)
    ensures AllReached(first, TakeTurn(f, turn), tame)
  {
    var f' := TakeTurn(f, turn);
    forall key | key in first.jobs
      ensures Reached(TaskIn(first, key).w, key, TaskIn(f', key), tame)
    {
      var t := TaskIn(f, key);
      if turn.By? && turn.key == key {
        ReachesNext(TaskIn(first, key).w, key, t, turn.move, tame);
      } else {
        if tame {
          TurnSparesOthers(first, f, turn, key);
        }
        ReachesNext(TaskIn(first, key).w, key, t, Elsewhere(f'.cpa), tame);
      }
    }
  }

  lemma {:induction false} TurnsKeepReached(first: Service, f: Service, turns: seq<Turn>, tame: bool)
    requires AllKeyed(first) && AllReached(first, f, tame) && HonestCallTurns(f, turns)
    requires tame ==> HonestTurns(f, turns)
    ensures AllReached(first, TakeTurns(f, turns), tame)
    decreases |turns|
  {
    if turns != [] {
      TurnKeepsReached(first, f, turns[0], tame);
      TurnsKeepReached(first, TakeTurn(f, turns[0]), turns[1..], tame);
    }
  }

  predicate AllIdle(f: Service) {
    forall key | key in f.jobs :: f.jobs[key].todo.Return?
  }

  lemma IdleIsReached(f: Service, tame: bool)
    requires AllIdle(f)
    ensures AllReached(f, f, tame)
  {
    forall key | key in f.jobs
      ensures Reached(TaskIn(f, key).w, key, TaskIn(f, key), tame)
    {
      OutsideMayRest(f.cpa, key);
      var w, t := TaskIn(f, key).w, TaskIn(f, key);
      assert Simulates(w, key, t, [], Nothing) && Tame(w, key, t, [], Nothing);
    }
  }

  /** In every interleaving of all accounts' steps, whatever they and the consumer do to the
      directory, each account is in a state that a run of its own calls reaches with the rest
      of the world outside: so everything proved of one account's runs holds of each account
      in the service. Unless a stale rename took another account's file, the outside of that
      run does no more than the consumer may. */
  lemma EveryInterleavingIsARunOfEach(f: Service, turns: seq<Turn>, key: string) returns (evs: seq<Event>)
    requires AllIdle(f) && AllKeyed(f) && HonestCallTurns(f, turns) && key in f.jobs
    ensures key in TakeTurns(f, turns).jobs
    ensures HonestCallRun(TaskIn(f, key).w, key, evs)
    ensures HonestTurns(f, turns) ==> HonestRun(TaskIn(f, key).w, key, evs)
    ensures Run(TaskIn(f, key).w, key, evs) == TaskIn(TakeTurns(f, turns), key).w
  {
    var tame := HonestTurns(f, turns);
    IdleIsReached(f, tame);
    TurnsKeepReached(f, f, turns, tame);
    var start, t := TaskIn(f, key).w, TaskIn(TakeTurns(f, turns), key);
    var evs', p :| Simulates(start, key, t, evs', p) && (tame ==> Tame(start, key, t, evs', p));
    CommitSettles(start, key, t, evs', p);
    evs := evs' + Commit(p) + [Outside(t.w.cpa)];
  }

  /** Every interleaving keeps what concerns tokens, generations and credentials of every
      account, and, unless a stale rename took another account's file, all its invariants. */
  lemma EveryInterleavingKeepsInv(f: Service, turns: seq<Turn>, key: string)
    requires AllIdle(f) && AllKeyed(f) && HonestCallTurns(f, turns) && key in f.jobs
    ensures key in TakeTurns(f, turns).jobs
    ensures Core(TaskIn(f, key).w, key) ==> Core(TaskIn(TakeTurns(f, turns), key).w, key)
    ensures HonestTurns(f, turns) && Inv(TaskIn(f, key).w, key) ==> Inv(TaskIn(TakeTurns(f, turns), key).w, key)
  {
    var evs := EveryInterleavingIsARunOfEach(f, turns, key);
    var w := TaskIn(f, key).w;
    if Core(w, key) {
      RunsKeepCore(w, key, evs);
    }
    if HonestTurns(f, turns) && Inv(w, key) {
      RunsKeepInv(w, key, evs);
    }
  }

  /** No token is sent again while its outcome is unknown, generations go forward, and a
      journaled rotation survives. */
  ghost predicate KeepsCredentials(w: World) {
    && NeverResent(w.log) && Ascending(w.log)
    && (Newest(w.log).Some? && Newest(w.log).value.SaveJournal? ==>
          || w.slot.journal == Some(Newest(w.log).value.grant)
          || (w.slot.canonical.Some? && SameCredential(w.slot.canonical.value, Newest(w.log).value.grant)))
  }

  /** The account has at most one consumer file, and once its generation is recorded as synced
      that file holds its current credential. */
  ghost predicate KeepsFiles(w: World, key: string) {
    && AtMostOneOwnFile(w.cpa, key)
    && (w.slot.canonical.Some?
        && w.slot.canonical.value.cpaSyncedGeneration == Some(w.slot.canonical.value.generation) ==>
          FilesCurrent(w.cpa, key, w.slot.canonical.value))
  }

  predicate AllEmpty(f: Service) {
    forall key | key in f.jobs :: f.jobs[key].todo.Return? && Empty(TaskIn(f, key).w)
  }

  /** The Broker's promises in every interleaving from an empty store. Those about credentials
      hold whatever is done to the consumer directory; those about the files in it hold unless
      the consumer forges a file or a stale rename takes another account's. */
  lemma PromisesHoldInEveryInterleaving(f: Service, turns: seq<Turn>, key: string)
    requires AllEmpty(f) && HonestCallTurns(f, turns) && key in f.jobs
    ensures key in TakeTurns(f, turns).jobs
    ensures KeepsCredentials(TaskIn(TakeTurns(f, turns), key).w)
    ensures HonestTurns(f, turns) && Fresh(TaskIn(f, key).w, key) ==> KeepsFiles(TaskIn(TakeTurns(f, turns), key).w, key)
  {
    EmptyIsSafe(TaskIn(f, key).w, key);
    if Fresh(TaskIn(f, key).w, key) {
      FreshIsSafe(TaskIn(f, key).w, key);
    }
    EveryInterleavingKeepsInv(f, turns, key);
  }

  // ----- One call after another is one interleaving -----

  function Repeated(key: string, n: nat): seq<Turn> {
    if n == 0 then [] else [By(key, Advance)] + Repeated(key, n - 1)
  }

  lemma {:induction false} TurnsJoin(f: Service, a: seq<Turn>, b: seq<Turn>)
    ensures TakeTurns(f, a + b) == TakeTurns(TakeTurns(f, a), b)
    ensures HonestTurns(f, a) && HonestTurns(TakeTurns(f, a), b) ==> HonestTurns(f, a + b)
    decreases |a|
  {
    if a == [] {
      assert a + b == b;
    } else {
      assert (a + b)[1..] == a[1..] + b;
      TurnsJoin(TakeTurn(f, a[0]), a[1..], b);
    }
  }

  lemma {:induction false} UndisturbedAdvances(f: Service, key: string, n: nat)
    requires key in f.jobs && Lawful(TaskIn(f, key).w, key, f.jobs[key].todo)
    ensures HonestTurns(f, Repeated(key, n))
    ensures TakeTurns(f, Repeated(key, n)) ==
              PutTask(f, key, Task(RunPlan(TaskIn(f, key).w, f.jobs[key].todo, n), After(f.jobs[key].todo, n)))
    decreases n
  {
    var t := TaskIn(f, key);
    if n != 0 {
      var turn := By(key, Advance);
      var f' := TakeTurn(f, turn);
      assert Repeated(key, n)[1..] == Repeated(key, n - 1);
      assert !TakesAnothersFile(f, turn);
      UndisturbedAdvances(f', key, n - 1);
      if t.todo.Return? {
        assert f' == f;
      } else {
        assert TaskIn(f', key) == Task(Apply(t.w, t.todo.effect), t.todo.rest);
      }
    }
  }

  function CallTurns(key: string, call: Call, n: nat): seq<Turn> {
    [By(key, Start(call))] + Repeated(key, n) + [By(key, Crash)]
  }

  lemma OneTurn(f: Service, turn: Turn)
    ensures TakeTurns(f, [turn]) == TakeTurn(f, turn) && HonestTurns(f, [turn]) == HonestTurn(f, turn)
  {
    var f' := TakeTurn(f, turn);
    assert [turn][1..] == [] && TakeTurns(f, [turn]) == TakeTurns(f', []) == f';
    assert HonestTurns(f', []);
  }

  lemma StartTurn(f: Service, key: string, call: Call, n: nat)
    requires key in f.jobs && f.jobs[key].todo.Return? && Honest(TaskIn(f, key).w, key, Perform(call, n))
    ensures var w := TaskIn(f, key).w;
            && HonestTurn(f, By(key, Start(call)))
            && TakeTurn(f, By(key, Start(call))) == PutTask(f, key, Task(w, PlanOf(w, key, call)))
  {
  }

  lemma CrashTurn(f: Service, key: string, t: Task)
    requires key in f.jobs
    ensures HonestTurn(PutTask(f, key, t), By(key, Crash))
    ensures TakeTurn(PutTask(f, key, t), By(key, Crash)) == PutTask(f, key, Idle(t.w))
  {
  }

  /** A call that nobody interferes with takes its steps and ends, or stops after some. */
  lemma UndisturbedCall(f: Service, key: string, call: Call, n: nat)
    requires key in f.jobs && f.jobs[key].todo.Return? && Keyed(TaskIn(f, key).w, key)
    requires Honest(TaskIn(f, key).w, key, Perform(call, n))
    ensures HonestTurns(f, CallTurns(key, call, n))
    ensures TakeTurns(f, CallTurns(key, call, n)) == PutTask(f, key, Idle(Step(TaskIn(f, key).w, key, Perform(call, n))))
  {
    var w, plan := TaskIn(f, key).w, PlanOf(TaskIn(f, key).w, key, call);
    var start, crash := By(key, Start(call)), By(key, Crash);
    var f1 := PutTask(f, key, Task(w, plan));
    var f2 := PutTask(f, key, Task(RunPlan(w, plan, n), After(plan, n)));
    StartTurn(f, key, call, n);
    assert TaskIn(f1, key) == Task(w, plan);
    OneTurn(f, start);
    CallsAreLawful(w, key, call, n);
    UndisturbedAdvances(f1, key, n);
    assert PutTask(f1, key, Task(RunPlan(w, plan, n), After(plan, n))) == f2;
    TurnsJoin(f, [start], Repeated(key, n));
    OneTurn(f2, crash);
    CrashTurn(f, key, Task(RunPlan(w, plan, n), After(plan, n)));
    TurnsJoin(f, [start] + Repeated(key, n), [crash]);
  }

  /** The store with nobody at work. */
  function AtRest(f: BrokerFleet.Fleet): Service {
    Service(map key | key in f.accounts :: Job(f.accounts[key].slot, f.accounts[key].log, Return(Err(Storage))), f.cpa)
  }

  function EventTurns(f: BrokerFleet.Fleet, ev: BrokerFleet.FleetEvent): seq<Turn> {
    match ev
    case At(key, call, n) => if key in f.accounts then CallTurns(key, call, n) else []
    case Elsewhere(cpa) => [Consumer(cpa)]
  }

  function AllTurns(f: BrokerFleet.Fleet, evs: seq<BrokerFleet.FleetEvent>): seq<Turn>
    decreases |evs|
  {
    if evs == [] then [] else EventTurns(f, evs[0]) + AllTurns(BrokerFleet.FleetStep(f, evs[0]), evs[1..])
  }

  lemma CallIsTurns(f: BrokerFleet.Fleet, key: string, call: Call, n: nat)
    requires AllKeyed(AtRest(f)) && BrokerFleet.HonestIn(f, BrokerFleet.At(key, call, n)) && key in f.accounts
    ensures HonestTurns(AtRest(f), CallTurns(key, call, n))
    ensures var w := BrokerFleet.WorldIn(f, key);
            && TakeTurns(AtRest(f), CallTurns(key, call, n)) == PutTask(AtRest(f), key, Idle(Step(w, key, Perform(call, n))))
            && Keyed(Step(w, key, Perform(call, n)), key)
  {
    var w := BrokerFleet.WorldIn(f, key);
    assert TaskIn(AtRest(f), key) == Idle(w);
    UndisturbedCall(AtRest(f), key, call, n);
    CallsAreLawful(w, key, call, n);
    PlanKeepsKey(w, key, PlanOf(w, key, call), n);
  }

  lemma RestingPutsOne(f: BrokerFleet.Fleet, key: string, call: Call, n: nat)
    requires key in f.accounts
    ensures AtRest(BrokerFleet.FleetStep(f, BrokerFleet.At(key, call, n))) ==
              PutTask(AtRest(f), key, Idle(Step(BrokerFleet.WorldIn(f, key), key, Perform(call, n))))
  {
  }

  lemma EventIsTurns(f: BrokerFleet.Fleet, ev: BrokerFleet.FleetEvent)
    requires AllKeyed(AtRest(f)) && BrokerFleet.HonestIn(f, ev)
    ensures HonestTurns(AtRest(f), EventTurns(f, ev)) && AllKeyed(AtRest(BrokerFleet.FleetStep(f, ev)))
    ensures TakeTurns(AtRest(f), EventTurns(f, ev)) == AtRest(BrokerFleet.FleetStep(f, ev))
  {
    var s, s' := AtRest(f), AtRest(BrokerFleet.FleetStep(f, ev));
    match ev {
      case At(key, call, n) =>
        if key in f.accounts {
          CallIsTurns(f, key, call, n);
          RestingPutsOne(f, key, call, n);
        }
      case Elsewhere(cpa) => OneTurn(s, Consumer(cpa));
    }
    forall k | k in s'.jobs
      ensures Keyed(TaskIn(s', k).w, k)
    {
      assert Keyed(TaskIn(s, k).w, k);
    }
  }

  /** What a single thread does with one call after another, the scheduler's pass included,
      is one of the interleavings. */
  lemma {:induction false} FleetRunIsAnInterleaving(f: BrokerFleet.Fleet, evs: seq<BrokerFleet.FleetEvent>)
    requires AllKeyed(AtRest(f)) && BrokerFleet.HonestFleetRun(f, evs)
    ensures HonestTurns(AtRest(f), AllTurns(f, evs))
    ensures TakeTurns(AtRest(f), AllTurns(f, evs)) == AtRest(BrokerFleet.FleetRun(f, evs))
    decreases |evs|
  {
    if evs != [] {
      var f1 := BrokerFleet.FleetStep(f, evs[0]);
      EventIsTurns(f, evs[0]);
      FleetRunIsAnInterleaving(f1, evs[1..]);
      TurnsJoin(AtRest(f), EventTurns(f, evs[0]), AllTurns(f1, evs[1..]));
    }
  }
}
