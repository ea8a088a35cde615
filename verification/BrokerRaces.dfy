/** What the missing lock on the consumer directory costs, and when it costs nothing. */
module BrokerRaces {
  import opened Basics
  import opened Grants
  import opened CpaDirectory
  import opened BrokerPlans
  import opened BrokerRuns
  import opened BrokerSafety
  import opened BrokerInterleaving
  import opened BrokerConcurrency
  import opened CpaSync

  // ----- Accounts with names of their own never collide -----

  /** The file names each account may use. */
  type Territory = map<string, set<string>>

  predicate StepsIn(plan: Plan, names: set<string>)
    decreases plan
  {
    plan.Then? ==>
      && (plan.effect.CpaWrite? ==> plan.effect.name in names)
      && (plan.effect.CpaRename? ==> plan.effect.from in names && plan.effect.to in names)
      && StepsIn(plan.rest, names)
  }

  predicate Disjoint(f: Service, t: Territory) {
    f.jobs.Keys <= t.Keys && forall a, b | a in f.jobs && b in f.jobs && a != b :: t[a] !! t[b]
  }

  predicate Settled(f: Service, t: Territory) {
    && Disjoint(f, t)
    && (forall key | key in f.jobs :: StepsIn(f.jobs[key].todo, t[key]))
    && (forall key, n | key in f.jobs && n in f.cpa && IsOwnFile(n, f.cpa, key) :: n in t[key])
  }

  /** Syncs begin only under a name of the account's own. */
  predicate StaysHome(f: Service, t: Territory, turn: Turn) {
    turn.By? && turn.move.Start? && turn.key in f.jobs && turn.key in t && f.jobs[turn.key].slot.canonical.Some? ==>
      CanonicalName(f.jobs[turn.key].slot.canonical.value, turn.key) in t[turn.key]
  }

  /** A turn that is honest apart from what it may do to another account's file. */
  predicate Fair(f: Service, turn: Turn) {
    && HonestCallTurn(f, turn)
    && (turn.Consumer? ==> forall key | key in f.jobs :: OutsideAllowed(f.cpa, turn.cpa, key))
  }

  predicate FairAtHome(f: Service, t: Territory, turns: seq<Turn>)
    decreases |turns|
  {
    turns != [] ==>
      && Fair(f, turns[0]) && StaysHome(f, t, turns[0])
      && FairAtHome(TakeTurn(f, turns[0]), t, turns[1..])
  }

  lemma {:induction false} PrependedStepsIn(steps: seq<Effect>, plan: Plan, names: set<string>)
    requires StepsIn(plan, names)
    requires forall e | e in steps :: e.CpaWrite? ==> e.name in names
    requires forall e | e in steps :: e.CpaRename? ==> e.from in names && e.to in names
    ensures StepsIn(Prepend(steps, plan), names)
    decreases |steps|
  {
    if steps != [] {
      assert steps[0] in steps && forall e | e in steps[1..] :: e in steps;
      PrependedStepsIn(steps[1..], plan, names);
    }
  }

  lemma {:induction false} FilelessStepsIn(plan: Plan, names: set<string>)
    requires Fileless(plan)
    ensures StepsIn(plan, names)
    decreases plan
  {
    if plan.Then? {
      FilelessStepsIn(plan.rest, names);
    }
  }

  /** The file steps of a sync: which files they name, and what they write. */
  lemma FileWorkMeaning(cpa: Directory, key: string, g: Grant, found: Found, now: nat, fault: Fault)
    ensures forall e | e in FileWorkFor(cpa, key, g, found, now, fault).steps ::
              && (e.CpaWrite? ==> e.name == CanonicalName(g, key)
                                  && e.value == ProjectionOver(g, if found.Some? then Some(found.value.1) else None))
              && (e.CpaRename? ==> e.to == CanonicalName(g, key) && found.Some? && e.from == found.value.0)
  {
  }

  lemma SyncStepsIn(w: World, key: string, dir: DirectoryState, now: nat, fault: Fault, names: set<string>)
    requires Honest(w, key, Perform(Sync(dir, now, fault), 0))
    requires w.slot.canonical.Some? && CanonicalName(w.slot.canonical.value, key) in names
    requires forall n | n in w.cpa && IsOwnFile(n, w.cpa, key) :: n in names
    ensures StepsIn(SyncPlan(w.slot, w.cpa, key, dir, now, fault), names)
  {
    var g := w.slot.canonical.value;
    if Projects(g) && dir.Listed? && Scan(dir.names, w.cpa, key, g).Ok? {
      var found := Scan(dir.names, w.cpa, key, g).value;
      ScanMeaning(dir.names, w.cpa, key, g);
      FileWorkMeaning(w.cpa, key, g, found, now, fault);
      var work := FileWorkFor(w.cpa, key, g, found, now, fault);
      FilelessStepsIn(FinishSync(g, work.error), names);
      PrependedStepsIn(work.steps, FinishSync(g, work.error), names);
    } else {
      FilelessStepsIn(SyncPlan(w.slot, w.cpa, key, dir, now, fault), names);
    }
  }

  lemma CallStepsIn(w: World, key: string, call: Call, names: set<string>)
    requires Honest(w, key, Perform(call, 0))
    requires w.slot.canonical.Some? ==> CanonicalName(w.slot.canonical.value, key) in names
    requires forall n | n in w.cpa && IsOwnFile(n, w.cpa, key) :: n in names
    ensures StepsIn(PlanOf(w, key, call), names)
  {
    if call.Sync? && w.slot.canonical.Some? {
      SyncStepsIn(w, key, call.dir, call.now, call.fault, names);
    } else {
      CallIsFileless(w, key, call);
      FilelessStepsIn(PlanOf(w, key, call), names);
    }
  }

  lemma NothingIsTaken(f: Service, t: Territory, turn: Turn)
    requires Settled(f, t)
    ensures !TakesAnothersFile(f, turn)
  {
  }

  /** The mover's own files and remaining steps stay within its names. */
  lemma MoverStaysHome(f: Service, t: Territory, key: string, move: Move)
    requires Settled(f, t) && Fair(f, By(key, move)) && StaysHome(f, t, By(key, move)) && key in f.jobs
    ensures var f' := TakeTurn(f, By(key, move));
            && StepsIn(f'.jobs[key].todo, t[key])
            && forall n | n in f'.cpa && IsOwnFile(n, f'.cpa, key) :: n in t[key]
  {
    var task := TaskIn(f, key);
    if move.Start? && task.todo.Return? {
      CallStepsIn(task.w, key, move.call, t[key]);
    } else if move.Advance? && task.todo.Then? && !Vanished(task) {
      assert StepsIn(task.todo.rest, t[key]);
    } else if (move.Advance? || move.Refuse?) && task.w.slot.canonical.Some? {
      var g := task.w.slot.canonical.value;
      FilelessStepsIn(FinishSync(g, Some(if move.Refuse? then move.error else Storage)), t[key]);
    }
  }

  /** Everybody else's files and remaining steps stay within theirs. */
  lemma OthersStayHome(first: Service, f: Service, t: Territory, key: string, turn: Turn)
    requires AllKeyed(first) && AllReached(first, f, true) && Settled(f, t) && HonestTurn(f, turn)
    requires key in f.jobs && (turn.By? ==> turn.key != key)
    ensures var f' := TakeTurn(f, turn);
            && StepsIn(f'.jobs[key].todo, t[key])
            && forall n | n in f'.cpa && IsOwnFile(n, f'.cpa, key) :: n in t[key]
  {
    TurnSparesOthers(first, f, turn, key);
  }

  lemma FairIsHonest(f: Service, t: Territory, turn: Turn)
    requires Settled(f, t) && Fair(f, turn)
    ensures HonestTurn(f, turn)
  {
    NothingIsTaken(f, t, turn);
  }

  lemma TurnStaysSettled(first: Service, f: Service, t: Territory, turn: Turn)
    requires AllKeyed(first) && AllReached(first, f, true) && Settled(f, t) && Fair(f, turn) && StaysHome(f, t, turn)
    ensures HonestTurn(f, turn) && Settled(TakeTurn(f, turn), t)
  {
    var f' := TakeTurn(f, turn);
    FairIsHonest(f, t, turn);
    forall key | key in f'.jobs
      ensures StepsIn(f'.jobs[key].todo, t[key])
      ensures forall n | n in f'.cpa && IsOwnFile(n, f'.cpa, key) :: n in t[key]
    {
      if turn.By? && turn.key == key {
        MoverStaysHome(f, t, key, turn.move);
      } else {
        OthersStayHome(first, f, t, key, turn);
      }
    }
  }

  /** When no account's sync uses a file name of another account, whatever the interleaving,
      no stale rename takes another's file: fair turns are honest turns. */
  lemma {:induction false} ApartNamesNeverCollide(first: Service, f: Service, t: Territory, turns: seq<Turn>)
    requires AllKeyed(first) && AllReached(first, f, true) && Settled(f, t) && FairAtHome(f, t, turns)
    ensures HonestTurns(f, turns)
    decreases |turns|
  {
    if turns != [] {
      TurnStaysSettled(first, f, t, turns[0]);
      TurnKeepsReached(first, f, turns[0], true);
      ApartNamesNeverCollide(first, TakeTurn(f, turns[0]), t, turns[1..]);
    }
  }

  /** From an empty store, accounts that share no file name keep every promise, whatever the
      interleaving. */
  lemma ApartNamesKeepEveryPromise(f: Service, t: Territory, turns: seq<Turn>, key: string)
    requires AllEmpty(f) && Disjoint(f, t) && FairAtHome(f, t, turns) && key in f.jobs
    requires forall k | k in f.jobs :: Fresh(TaskIn(f, k).w, k)
    ensures key in TakeTurns(f, turns).jobs
    ensures KeepsCredentials(TaskIn(TakeTurns(f, turns), key).w) && KeepsFiles(TaskIn(TakeTurns(f, turns), key).w, key)
  {
    IdleIsReached(f, true);
    forall k, n | k in f.jobs && n in f.cpa
      ensures !IsOwnFile(n, f.cpa, k)
    {
      assert Fresh(TaskIn(f, k).w, k);
    }
    ApartNamesNeverCollide(f, f, t, turns);
    HonestTurnsHaveHonestCalls(f, turns);
    PromisesHoldInEveryInterleaving(f, turns, key);
  }

  // ----- Exactly when a file step keeps what is not its own -----

  predicate SparesForeignFiles(before: Directory, after: Directory, key: string) {
    forall n | n in before && !IsOwnFile(n, before, key) :: n in after && after[n] == before[n]
  }

  /** A file step made in a directory that has changed since the scan leaves every file that
      is not the account's alone exactly when neither of its names is a foreign file's by then. */
  lemma ForeignFilesAreKeptExactlyWhen(cpa: Directory, e: Effect, key: string)
    requires FileStep(e) && OwnStep(e, key) && (e.CpaWrite? ==> HasJsonExtension(e.name))
    ensures SparesForeignFiles(cpa, ApplyToDirectory(cpa, e), key) <==>
              if e.CpaWrite? then e.name in cpa ==> IsOwnFile(e.name, cpa, key)
              else e.from in cpa ==> IsOwnFile(e.from, cpa, key) && (e.to in cpa ==> IsOwnFile(e.to, cpa, key))
  {
    var after := ApplyToDirectory(cpa, e);
    if e.CpaWrite? && e.name in cpa {
      assert cpa[e.name] == after[e.name] ==> IsOwnFile(e.name, cpa, key);
    }
    if e.CpaRename? && e.from in cpa {
      assert e.from !in after && after[e.to] == cpa[e.from];
      if e.to in cpa && IsOwnFile(e.from, cpa, key) {
        assert cpa[e.to] == after[e.to] ==> IsOwnFile(e.to, cpa, key);
      }
    }
  }

  function SwitchOf(own: Option<Json>): Option<Json> {
    if own.Some? then own.value.Get(Disabled) else None
  }

  /** A sync's write keeps the operator's switch exactly when it still is as scanned. */
  lemma SwitchIsKeptExactlyWhen(w: World, key: string, listing: seq<string>, now: nat, fault: Fault, n: nat, cpa: Directory)
    requires Keyed(w, key) && Lists(listing, w.cpa)
    requires var left := After(SyncPlan(w.slot, w.cpa, key, Listed(listing), now, fault), n);
             left.Then? && left.effect.CpaWrite? && IsOwnFile(left.effect.name, cpa, key)
    ensures var write := After(SyncPlan(w.slot, w.cpa, key, Listed(listing), now, fault), n).effect;
            var after := ApplyToDirectory(cpa, write);
            after[write.name].Doc? &&
            (after[write.name].value.Get(Disabled) == cpa[write.name].value.Get(Disabled) <==>
               cpa[write.name].value.Get(Disabled) == SwitchOf(OwnDocument(w.cpa, key)))
  {
    var plan := SyncPlan(w.slot, w.cpa, key, Listed(listing), now, fault);
    BooksHaveNoFileStep(if BooksOnly(plan) then plan else Return(Err(Storage)), n);
    var g := w.slot.canonical.value;
    var work := ProjectWork(w.cpa, key, g, Listed(listing), now, fault);
    FileStepComesFirst(work.steps, FinishSync(g, work.error), n);
    ScanMeaning(listing, w.cpa, key, g);
    var found := Scan(listing, w.cpa, key, g).value;
    OwnDocumentIsFound(w.cpa, key, found);
    FileWorkMeaning(w.cpa, key, g, found, now, fault);
    var write := work.steps[n];
    assert write in FileWorkFor(w.cpa, key, g, found, now, fault).steps;
    ProjectionKeepsTheSwitch(g, if found.Some? then Some(found.value.1) else None);
  }

  lemma ProjectionKeepsTheSwitch(g: Grant, own: Option<Json>)
    ensures ProjectionOver(g, own).Get(Disabled) == SwitchOf(own)
  {
    ProjectionIsCurrent(g, own);
  }

  // ----- Two accounts with one file name -----

  /** A grant that a sync may project. */
  function Sample(key: string, email: string, accountId: string, generation: nat): Grant {
    Grant(key, email, accountId, None, None, Jwt("a", None), Jwt("i", None), "r", 1000, 0, 0, generation, 0, 0,
          Digest("r"), false, None, 0, None, true, None, None, false, None)
  }

  /** The file name drops what is not plain, so different emails can share it. */
  lemma SomeNamesCoincide()
    ensures FilterStem("n") == FilterStem("n\U{221A}") == "n"
  {
    assert "n"[1..] == "" && "n\U{221A}"[1..] == "\U{221A}" && "\U{221A}"[1..] == "";
    assert FilterStem("\U{221A}") == FilterStem("") == "";
  }

  function Freed(g: Grant): Job {
    Job(Slot(Some(g), None), [], Return(Err(Storage)))
  }

  const SYNC_OF_NOTHING := Start(Sync(Listed([]), 0, NoFault))

  function Recorded(g: Grant): Grant {
    g.(cpaSyncedGeneration := Some(g.generation), cpaSyncError := None)
  }

  /** Write a file and record it as synced. */
  function WritePlan(name: string, value: Json, synced: Grant): Plan {
    Then(CpaWrite(name, value), Then(Amend(synced), Return(Ok(synced))))
  }

  lemma FirstSyncWrites(w: World, key: string, g: Grant)
    requires w.slot == Slot(Some(g), None) && w.cpa == map[] && Projects(g) && g.cpaSyncedGeneration.None? && 0 < g.expiresAt
    ensures PlanOf(w, key, SYNC_OF_NOTHING.call) == WritePlan(CanonicalName(g, key), Projection(g), Recorded(g))
  {
    var work := ProjectWork(w.cpa, key, g, Listed([]), 0, NoFault);
    assert work == FileWork([CpaWrite(CanonicalName(g, key), Projection(g))], None);
    assert work.steps[1..] == [];
    assert Prepend(work.steps, FinishSync(g, None)) == Then(work.steps[0], Prepend(work.steps[1..], FinishSync(g, None)));
  }

  lemma StartsSync(f: Service, key: string, g: Grant)
    requires key in f.jobs && f.jobs[key] == Freed(g) && f.cpa == map[]
    requires Projects(g) && g.cpaSyncedGeneration.None? && 0 < g.expiresAt
    ensures HonestTurn(f, By(key, SYNC_OF_NOTHING))
    ensures TakeTurn(f, By(key, SYNC_OF_NOTHING)) ==
              f.(jobs := f.jobs[key := Freed(g).(todo :=
                WritePlan(CanonicalName(g, key), Projection(g), Recorded(g)))])
  {
    FirstSyncWrites(TaskIn(f, key).w, key, g);
  }

  lemma AdvancesWrite(f: Service, key: string, name: string, value: Json, rest: Plan)
    requires key in f.jobs && f.jobs[key].todo == Then(CpaWrite(name, value), rest)
    ensures HonestTurn(f, By(key, Advance))
    ensures TakeTurn(f, By(key, Advance)) ==
              Service(f.jobs[key := Job(f.jobs[key].slot, f.jobs[key].log + [CpaWrite(name, value)], rest)],
                      f.cpa[name := Doc(value)])
  {
  }

  lemma AdvancesRecord(f: Service, key: string, g: Grant, rest: Plan)
    requires key in f.jobs && f.jobs[key].todo == Then(Amend(g), rest)
    ensures HonestTurn(f, By(key, Advance))
    ensures TakeTurn(f, By(key, Advance)) ==
              Service(f.jobs[key := Job(f.jobs[key].slot.(canonical := Some(g)), f.jobs[key].log + [Amend(g)], rest)], f.cpa)
  {
  }

  function RaceTurns(a: string, b: string): seq<Turn> {
    [By(a, SYNC_OF_NOTHING), By(b, SYNC_OF_NOTHING), By(a, Advance), By(a, Advance), By(b, Advance)]
  }

  /** Both scan an empty directory; the second write replaces the first account's file, which
      is gone although its grant records it as synced. */
  lemma SharedNameLosesAFile(a: string, b: string, ga: Grant, gb: Grant)
    requires a != b && ga.key == a && gb.key == b && CanonicalName(ga, a) == CanonicalName(gb, b)
    requires Projects(ga) && ga.cpaSyncedGeneration.None? && 0 < ga.expiresAt
    requires Projects(gb) && gb.cpaSyncedGeneration.None? && 0 < gb.expiresAt
    ensures var f := Service(map[a := Freed(ga), b := Freed(gb)], map[]);
            var f' := TakeTurns(f, RaceTurns(a, b));
            && HonestTurns(f, RaceTurns(a, b)) && a in f'.jobs
            && f'.jobs[a].slot.canonical == Some(Recorded(ga))
            && f'.cpa == map[CanonicalName(gb, b) := Doc(Projection(gb))]
            && !IsOwnFile(CanonicalName(ga, a), f'.cpa, a)
  {
    var f := Service(map[a := Freed(ga), b := Freed(gb)], map[]);
    StartsSync(f, a, ga);
    var f1 := TakeTurn(f, By(a, SYNC_OF_NOTHING));
    StartsSync(f1, b, gb);
    var f2 := TakeTurn(f1, By(b, SYNC_OF_NOTHING));
    BothWrite(f2, a, b, CanonicalName(ga, a), ga, gb);
    FiveTurns(f, By(a, SYNC_OF_NOTHING), By(b, SYNC_OF_NOTHING), By(a, Advance), By(a, Advance), By(b, Advance));
  }

  /** Both write the same name, the first one having recorded its generation as synced. */
  lemma BothWrite(f: Service, a: string, b: string, name: string, ga: Grant, gb: Grant)
    requires a != b && a in f.jobs && b in f.jobs && f.cpa == map[] && ga.key == a && gb.key == b
    requires f.jobs[a] == Freed(ga).(todo := WritePlan(name, Projection(ga), Recorded(ga)))
    requires f.jobs[b] == Freed(gb).(todo := WritePlan(name, Projection(gb), Recorded(gb)))
    ensures var f1 := TakeTurn(f, By(a, Advance)); var f2 := TakeTurn(f1, By(a, Advance));
            var f3 := TakeTurn(f2, By(b, Advance));
            && HonestTurn(f, By(a, Advance)) && HonestTurn(f1, By(a, Advance)) && HonestTurn(f2, By(b, Advance))
            && a in f3.jobs && f3.jobs[a].slot.canonical == Some(Recorded(ga))
            && f3.cpa == map[name := Doc(Projection(gb))] && !IsOwnFile(name, f3.cpa, a)
  {
    AdvancesWrite(f, a, name, Projection(ga), WritePlan(name, Projection(ga), Recorded(ga)).rest);
    var f1 := TakeTurn(f, By(a, Advance));
    AdvancesRecord(f1, a, Recorded(ga), Return(Ok(Recorded(ga))));
    var f2 := TakeTurn(f1, By(a, Advance));
    AdvancesWrite(f2, b, name, Projection(gb), WritePlan(name, Projection(gb), Recorded(gb)).rest);
  }

  /** It can happen: two accounts whose emails differ in one special character. */
  lemma SharedNameExists()
    ensures var ga, gb := Sample("a", "n", "1", 1), Sample("b", "n\U{221A}", "2", 1);
            var f' := TakeTurns(Service(map["a" := Freed(ga), "b" := Freed(gb)], map[]), RaceTurns("a", "b"));
            && "a" in f'.jobs && f'.jobs["a"].slot.canonical == Some(ga.(cpaSyncedGeneration := Some(1)))
            && f'.cpa == map[CanonicalName(ga, "a") := Doc(Projection(gb))]
  {
    SomeNamesCoincide();
    SharedNameLosesAFile("a", "b", Sample("a", "n", "1", 1), Sample("b", "n\U{221A}", "2", 1));
  }

  lemma FourTurns(f: Service, t1: Turn, t2: Turn, t3: Turn, t4: Turn)
    ensures var f1 := TakeTurn(f, t1); var f2 := TakeTurn(f1, t2); var f3 := TakeTurn(f2, t3);
            && TakeTurns(f, [t1, t2, t3, t4]) == TakeTurn(f3, t4)
            && (HonestTurn(f, t1) && HonestTurn(f1, t2) && HonestTurn(f2, t3) && HonestTurn(f3, t4) ==>
                  HonestTurns(f, [t1, t2, t3, t4]))
  {
    var f1 := TakeTurn(f, t1);
    var f2 := TakeTurn(f1, t2);
    var f3 := TakeTurn(f2, t3);
    var f4 := TakeTurn(f3, t4);
    assert [t1, t2, t3, t4][1..] == [t2, t3, t4] && [t2, t3, t4][1..] == [t3, t4];
    assert [t3, t4][1..] == [t4] && [t4][1..] == [];
    assert TakeTurns(f3, [t4]) == TakeTurns(f4, []) == f4;
    assert TakeTurns(f2, [t3, t4]) == f4 && TakeTurns(f1, [t2, t3, t4]) == f4;
    assert HonestTurns(f4, []);
    assert HonestTurn(f3, t4) ==> HonestTurns(f3, [t4]);
    assert HonestTurn(f2, t3) && HonestTurns(f3, [t4]) ==> HonestTurns(f2, [t3, t4]);
    assert HonestTurn(f1, t2) && HonestTurns(f2, [t3, t4]) ==> HonestTurns(f1, [t2, t3, t4]);
  }

  lemma FiveTurns(f: Service, t1: Turn, t2: Turn, t3: Turn, t4: Turn, t5: Turn)
    ensures var f1 := TakeTurn(f, t1); var f2 := TakeTurn(f1, t2); var f3 := TakeTurn(f2, t3); var f4 := TakeTurn(f3, t4);
            && TakeTurns(f, [t1, t2, t3, t4, t5]) == TakeTurn(f4, t5)
            && (HonestTurn(f, t1) && HonestTurn(f1, t2) && HonestTurn(f2, t3) && HonestTurn(f3, t4) && HonestTurn(f4, t5) ==>
                  HonestTurns(f, [t1, t2, t3, t4, t5]))
  {
    var f1 := TakeTurn(f, t1);
    assert [t1, t2, t3, t4, t5][1..] == [t2, t3, t4, t5];
    FourTurns(f1, t2, t3, t4, t5);
  }

  // ----- A switch flipped between scan and write -----

  lemma ScanOfOwnFile(cpa: Directory, key: string, g: Grant, name: string, own: Json)
    requires name in cpa && cpa[name] == Doc(own) && IsManaged(own, key) && !HoldsRefreshToken(own) && HasJsonExtension(name)
    ensures Scan([name], cpa, key, g) == Ok(Some((name, own)))
  {
    assert [name][1..] == [];
    assert ScanFrom([], Some((name, own)), cpa, key, g) == Ok(Some((name, own)));
  }

  function WithSwitch(v: Json, on: bool): Json
    requires v.JObj?
  {
    JObj(v.fields[Disabled := JBool(on)])
  }

  lemma RewritesOwnFile(w: World, key: string, g: Grant, name: string, own: Json)
    requires w.slot == Slot(Some(g), None) && w.cpa == map[name := Doc(own)] && name == CanonicalName(g, key)
    requires Projects(g) && 0 < g.expiresAt
    requires IsManaged(own, key) && !HoldsRefreshToken(own) && ProjectionOver(g, Some(own)) != own
    ensures var plan := PlanOf(w, key, Sync(Listed([name]), 0, NoFault));
            plan.Then? && plan.effect == CpaWrite(name, ProjectionOver(g, Some(own)))
  {
    CanonicalNameIsScanned(g, key);
    ScanOfOwnFile(w.cpa, key, g, name, own);
    var write := CpaWrite(name, ProjectionOver(g, Some(own)));
    assert [] + [write] == [write];
    assert ProjectWork(w.cpa, key, g, Listed([name]), 0, NoFault) == FileWork([write], None);
    assert Prepend([write], FinishSync(g, None)).effect == write;
  }

  /** The operator disables a file after the sync has scanned it: the write, which carries the
      switch as scanned, enables it again. */
  lemma SwitchFlipIsLost(key: string, g: Grant, own: Json)
    requires Projects(g) && g.key == key && 0 < g.expiresAt && own.JObj?
    requires var scanned := WithSwitch(own, false);
             IsManaged(scanned, key) && !HoldsRefreshToken(scanned) && ProjectionOver(g, Some(scanned)) != scanned
    ensures var name := CanonicalName(g, key);
            var start := World(Slot(Some(g), None), map[name := Doc(WithSwitch(own, false))], []);
            var flip := Elsewhere(map[name := Doc(WithSwitch(own, true))]);
            var moves := [Start(Sync(Listed([name]), 0, NoFault)), flip, Advance];
            var t := MoveAll(Idle(start), key, moves);
            && HonestMoves(Idle(start), key, moves)
            && name in t.w.cpa && t.w.cpa[name].Doc? && t.w.cpa[name].value.Get(Disabled) == Some(JBool(false))
  {
    var name := CanonicalName(g, key);
    var before, after := WithSwitch(own, false), WithSwitch(own, true);
    var start := World(Slot(Some(g), None), map[name := Doc(before)], []);
    RewritesOwnFile(start, key, g, name, before);
    ProjectionKeepsTheSwitch(g, Some(before));
    assert after.fields - {Disabled} == before.fields - {Disabled};
    WriteAfterFlip(start, key, Sync(Listed([name]), 0, NoFault), name, before, after, ProjectionOver(g, Some(before)));
  }

  lemma WriteAfterFlip(w: World, key: string, call: Call, name: string, before: Json, after: Json, value: Json)
    requires w.cpa == map[name := Doc(before)] && SameButDisabled(before, after) && HasJsonExtension(name)
    requires IsManaged(before, key) && Honest(w, key, Perform(call, 0))
    requires PlanOf(w, key, call).Then? && PlanOf(w, key, call).effect == CpaWrite(name, value)
    ensures var moves := [Start(call), Elsewhere(map[name := Doc(after)]), Advance];
            var t := MoveAll(Idle(w), key, moves);
            HonestMoves(Idle(w), key, moves) && name in t.w.cpa && t.w.cpa[name] == Doc(value)
  {
    var plan, flip := PlanOf(w, key, call), Elsewhere(map[name := Doc(after)]);
    var t1 := Task(w, plan);
    var t2 := Task(w.(cpa := map[name := Doc(after)]), plan);
    assert MoveOne(Idle(w), key, Start(call)) == t1 && MoveOne(t1, key, flip) == t2;
    ThreeMoves(Idle(w), key, Start(call), flip, Advance);
  }

  lemma ThreeMoves(t: Task, key: string, a: Move, b: Move, c: Move)
    ensures var t1 := MoveOne(t, key, a); var t2 := MoveOne(t1, key, b);
            && MoveAll(t, key, [a, b, c]) == MoveOne(t2, key, c)
            && (HonestMove(t, key, a) && HonestMove(t1, key, b) && HonestMove(t2, key, c) ==> HonestMoves(t, key, [a, b, c]))
  {
    var t1 := MoveOne(t, key, a);
    var t2 := MoveOne(t1, key, b);
    var t3 := MoveOne(t2, key, c);
    assert [a, b, c][1..] == [b, c] && [b, c][1..] == [c] && [c][1..] == [];
    assert MoveAll(t2, key, [c]) == MoveAll(t3, key, []) == t3;
    assert MoveAll(t1, key, [b, c]) == t3;
    assert HonestMoves(t3, key, []);
    assert HonestMove(t2, key, c) ==> HonestMoves(t2, key, [c]);
    assert HonestMove(t1, key, b) && HonestMoves(t2, key, [c]) ==> HonestMoves(t1, key, [b, c]);
  }

  /** Such a grant and file exist: the file of the generation before. */
  lemma SwitchFlipExists()
    ensures var g := Sample("a", "n", "1", 2); var scanned := WithSwitch(Projection(Sample("a", "n", "1", 1)), false);
            && Projects(g) && IsManaged(scanned, "a") && !HoldsRefreshToken(scanned)
            && ProjectionOver(g, Some(scanned)) != scanned
  {
    var g := Sample("a", "n", "1", 2);
    var scanned := WithSwitch(Projection(Sample("a", "n", "1", 1)), false);
    ProjectionIsCurrent(g, Some(scanned));
    assert scanned.Get(NotraceGeneration) == Some(JNum(1));
  }

  // ----- A stale rename -----

  /** The turns of two accounts, the first of which has a file under the name that the second
      is about to use. */
  function StaleTurns(a: string, b: string, mine: string, hers: string, own: CpaFile): seq<Turn> {
    [By(a, Start(Sync(Listed([mine, hers]), 0, NoFault))), Consumer(map[hers := own]),
     By(b, Start(Sync(Listed([hers]), 0, NoFault))), By(b, Advance), By(a, Advance), By(b, Advance)]
  }

  /** A sync that finds its file under an old name begins with a rename. */
  lemma StartsRename(f: Service, key: string, g: Grant, listing: seq<string>, from: string, own: Json)
    requires key in f.jobs && f.jobs[key] == Freed(g) && Projects(g) && 0 < g.expiresAt
    requires Lists(listing, f.cpa) && Scan(listing, f.cpa, key, g) == Ok(Some((from, own)))
    requires from != CanonicalName(g, key) && CanonicalName(g, key) !in f.cpa
    ensures var move := By(key, Start(Sync(Listed(listing), 0, NoFault)));
            var f' := TakeTurn(f, move);
            && HonestTurn(f, move) && key in f'.jobs && f' == f.(jobs := f.jobs[key := Freed(g).(todo := f'.jobs[key].todo)])
            && f'.jobs[key].todo.Then? && f'.jobs[key].todo.effect == CpaRename(from, CanonicalName(g, key))
            && (own != ProjectionOver(g, Some(own)) ==>
                  f'.jobs[key].todo.rest.Then?
                  && f'.jobs[key].todo.rest.effect == CpaWrite(CanonicalName(g, key), ProjectionOver(g, Some(own))))
  {
    var name, value := CanonicalName(g, key), ProjectionOver(g, Some(own));
    var work := ProjectWork(f.cpa, key, g, Listed(listing), 0, NoFault);
    var steps := if own == value then [CpaRename(from, name)] else [CpaRename(from, name), CpaWrite(name, value)];
    assert work == FileWork(steps, None);
    var finish := FinishSync(g, None);
    assert Prepend(steps, finish) == Then(steps[0], Prepend(steps[1..], finish));
    if own != value {
      assert steps[1..] == [CpaWrite(name, value)];
      assert Prepend(steps[1..], finish) == Then(CpaWrite(name, value), Prepend(steps[1..][1..], finish));
    }
  }

  lemma AdvancesRename(f: Service, key: string, from: string, to: string)
    requires key in f.jobs && f.jobs[key].todo.Then? && f.jobs[key].todo.effect == CpaRename(from, to) && from in f.cpa
    ensures TakeTurn(f, By(key, Advance)) ==
              Service(f.jobs[key := Job(f.jobs[key].slot, f.jobs[key].log + [CpaRename(from, to)], f.jobs[key].todo.rest)],
                      (f.cpa - {from})[to := f.cpa[from]])
  {
  }

  predicate MayMeet(a: string, b: string, ga: Grant, gb: Grant, hers: string, da: Json, db: Json) {
    var mine := CanonicalName(gb, b);
    && a != b && ga.key == a && gb.key == b && Projects(ga) && Projects(gb) && 0 < ga.expiresAt && 0 < gb.expiresAt
    && mine != hers && mine != CanonicalName(ga, a) && hers != CanonicalName(ga, a)
    && HasJsonExtension(hers) && hers != LegacyName(a)
    && IsManaged(da, a) && !HoldsRefreshToken(da)
    && IsManaged(db, b) && !HoldsRefreshToken(db) && !IdentityMatches(db, ga) && db != ProjectionOver(gb, Some(db))
  }

  /** Both renames are under way: the first account's file was deleted after its scan. */
  predicate BothRenaming(f: Service, a: string, b: string, his: string, mine: string, hers: string, db: Json, value: Json) {
    && a != b && f.jobs.Keys == {a, b} && f.cpa == map[hers := Doc(db)]
    && f.jobs[a].todo.Then? && f.jobs[a].todo.effect == CpaRename(mine, his)
    && f.jobs[b].todo.Then? && f.jobs[b].todo.effect == CpaRename(hers, mine)
    && f.jobs[b].todo.rest.Then? && f.jobs[b].todo.rest.effect == CpaWrite(mine, value)
  }

  lemma FirstBegins(f: Service, a: string, b: string, ga: Grant, gb: Grant, mine: string, hers: string, da: Json, db: Json)
    requires MayMeet(a, b, ga, gb, hers, da, db) && mine == CanonicalName(gb, b)
    requires f == Service(map[a := Freed(ga), b := Freed(gb)], map[mine := Doc(da), hers := Doc(db)])
    ensures var turn := By(a, Start(Sync(Listed([mine, hers]), 0, NoFault))); var f1 := TakeTurn(f, turn);
            && HonestTurn(f, turn) && f1.cpa == f.cpa && f1.jobs.Keys == {a, b} && f1.jobs[b] == Freed(gb)
            && f1.jobs[a].todo.Then? && f1.jobs[a].todo.effect == CpaRename(mine, CanonicalName(ga, a))
  {
    CanonicalNameIsScanned(gb, b);
    ScanPastAnothers(f.cpa, a, ga, mine, hers, da);
    StartsRename(f, a, ga, [mine, hers], mine, da);
  }

  lemma SecondBegins(f: Service, a: string, b: string, gb: Grant, his: string, hers: string, db: Json)
    requires a != b && f.jobs.Keys == {a, b} && f.jobs[b] == Freed(gb) && f.cpa == map[hers := Doc(db)]
    requires f.jobs[a].todo.Then? && f.jobs[a].todo.effect == CpaRename(CanonicalName(gb, b), his)
    requires Projects(gb) && 0 < gb.expiresAt && hers != CanonicalName(gb, b) && HasJsonExtension(hers)
    requires IsManaged(db, b) && !HoldsRefreshToken(db) && db != ProjectionOver(gb, Some(db))
    ensures var turn := By(b, Start(Sync(Listed([hers]), 0, NoFault)));
            && HonestTurn(f, turn)
            && BothRenaming(TakeTurn(f, turn), a, b, his, CanonicalName(gb, b), hers, db, ProjectionOver(gb, Some(db)))
  {
    ScanOfOwnFile(f.cpa, b, gb, hers, db);
    StartsRename(f, b, gb, [hers], hers, db);
  }

  lemma BothBegin(f: Service, a: string, b: string, ga: Grant, gb: Grant, mine: string, hers: string, da: Json, db: Json,
                  t0: Turn, t1: Turn, t2: Turn)
    requires MayMeet(a, b, ga, gb, hers, da, db) && mine == CanonicalName(gb, b)
    requires f == Service(map[a := Freed(ga), b := Freed(gb)], map[mine := Doc(da), hers := Doc(db)])
    requires t0 == By(a, Start(Sync(Listed([mine, hers]), 0, NoFault)))
    requires t1 == Consumer(map[hers := Doc(db)]) && t2 == By(b, Start(Sync(Listed([hers]), 0, NoFault)))
    ensures var f1 := TakeTurn(f, t0); var f2 := TakeTurn(f1, t1);
            && HonestTurn(f, t0) && HonestTurn(f1, t1) && HonestTurn(f2, t2)
            && BothRenaming(TakeTurn(f2, t2), a, b, CanonicalName(ga, a), mine, hers, db, ProjectionOver(gb, Some(db)))
  {
    FirstBegins(f, a, b, ga, gb, mine, hers, da, db);
    var f1 := TakeTurn(f, t0);
    DeletingIsHonest(f1, mine, hers, Doc(db));
    var f2 := TakeTurn(f1, t1);
    assert f2 == f1.(cpa := map[hers := Doc(db)]);
    SecondBegins(f2, a, b, gb, CanonicalName(ga, a), hers, db);
  }

  lemma DeletingIsHonest(f: Service, mine: string, hers: string, own: CpaFile)
    requires hers in f.cpa && f.cpa[hers] == own
    ensures HonestTurn(f, Consumer(map[hers := own]))
  {
  }

  lemma BothEnd(f: Service, a: string, b: string, his: string, mine: string, hers: string, db: Json, value: Json)
    requires BothRenaming(f, a, b, his, mine, hers, db, value) && his != mine && his != hers && mine != hers
    requires HasJsonExtension(his) && HasJsonExtension(mine) && IsManaged(db, b) && IsManaged(value, b)
    ensures HonestTurn(f, By(b, Advance))
    ensures var f4 := TakeTurn(f, By(b, Advance));
            var f6 := TakeTurn(TakeTurn(f4, By(a, Advance)), By(b, Advance));
            TakesAnothersFile(f4, By(a, Advance)) && IsOwnFile(mine, f6.cpa, b) && IsOwnFile(his, f6.cpa, b)
  {
    AdvancesRename(f, b, hers, mine);
    var f4 := TakeTurn(f, By(b, Advance));
    assert f4.cpa == map[mine := Doc(db)];
    AdvancesRename(f4, a, mine, his);
    var f5 := TakeTurn(f4, By(a, Advance));
    assert f5.cpa == map[his := Doc(db)];
    AdvancesWrite(f5, b, mine, value, f5.jobs[b].todo.rest);
  }

  /** Two scans in between which the consumer deletes a file: the second account renames its
      own file to that name, the first account's stale rename takes it away, and the second
      account's write leaves it with two files. */
  lemma StaleRenameLeavesTwoFiles(a: string, b: string, ga: Grant, gb: Grant, hers: string, da: Json, db: Json)
    requires MayMeet(a, b, ga, gb, hers, da, db)
    ensures var mine := CanonicalName(gb, b);
            var f := Service(map[a := Freed(ga), b := Freed(gb)], map[mine := Doc(da), hers := Doc(db)]);
            var turns := StaleTurns(a, b, mine, hers, Doc(db));
            && HonestTurns(f, turns[..4]) && TakesAnothersFile(TakeTurns(f, turns[..4]), turns[4])
            && IsOwnFile(mine, TakeTurns(f, turns).cpa, b) && IsOwnFile(CanonicalName(ga, a), TakeTurns(f, turns).cpa, b)
  {
    var mine, his := CanonicalName(gb, b), CanonicalName(ga, a);
    CanonicalNameIsScanned(gb, b);
    CanonicalNameIsScanned(ga, a);
    ProjectionIsCurrent(gb, Some(db));
    var f := Service(map[a := Freed(ga), b := Freed(gb)], map[mine := Doc(da), hers := Doc(db)]);
    var turns := StaleTurns(a, b, mine, hers, Doc(db));
    BothBegin(f, a, b, ga, gb, mine, hers, da, db, turns[0], turns[1], turns[2]);
    var f3 := TakeTurn(TakeTurn(TakeTurn(f, turns[0]), turns[1]), turns[2]);
    BothEnd(f3, a, b, his, mine, hers, db, ProjectionOver(gb, Some(db)));
    SixTurns(f, turns);
  }

  lemma NamesOfTheMeeting(ga: Grant, gb: Grant)
    requires ga.email == "m" && gb.email == "M\U{221A}"
    ensures CanonicalName(ga, "a") == "m.json" && CanonicalName(gb, "b") == "M.json"
  {
    assert "m"[1..] == "" && "M\U{221A}"[1..] == "\U{221A}" && "\U{221A}"[1..] == "";
    assert FilterStem("\U{221A}") == FilterStem("") == "";
  }

  lemma LegacyNamesApart()
    ensures LegacyName("b") != LegacyName("a") && HasJsonExtension(LegacyName("b"))
    ensures |LegacyName("b")| == 14
  {
    assert LegacyName("b") == "notrace_b" + ".json" && LegacyName("a") == "notrace_a" + ".json";
    assert LegacyName("b")[8] == 'b' && LegacyName("a")[8] == 'a';
    assert LegacyName("b")[9..] == ".json";
  }

  lemma ProjectionOfAnother(g: Grant, other: Grant)
    requires g.accountId != other.accountId && |g.email| != |other.email|
    ensures !IdentityMatches(Projection(other), g) && !HoldsRefreshToken(Projection(other))
    ensures IsManaged(Projection(other), other.key)
  {
    ProjectionIsCurrent(other, None);
    assert |Lower(g.email)| == |g.email| && |Lower(other.email)| == |other.email|;
    assert Projection(other).Get(TokenObject).None?;
    assert Projection(other).Text(Email) == Some(other.email) && Projection(other).Text(AccountId) == Some(other.accountId);
  }

  lemma OutdatedProjection(g: Grant, earlier: Grant)
    requires g.generation != earlier.generation
    ensures Projection(earlier) != ProjectionOver(g, Some(Projection(earlier)))
  {
    ProjectionIsCurrent(g, Some(Projection(earlier)));
    assert Projection(earlier).Get(NotraceGeneration) == Some(JNum(earlier.generation));
  }

  /** Such accounts exist: the first one's email was once written with a capital, which is
      now the file name of the second. */
  lemma StaleRenameExists()
    ensures MayMeet("a", "b", Sample("a", "m", "1", 2), Sample("b", "M\U{221A}", "2", 2), LegacyName("b"),
                    Projection(Sample("a", "M", "1", 1)), Projection(Sample("b", "M\U{221A}", "2", 1)))
  {
    var ga, gb := Sample("a", "m", "1", 2), Sample("b", "M\U{221A}", "2", 2);
    NamesOfTheMeeting(ga, gb);
    LegacyNamesApart();
    assert "m.json"[0] == 'm' && "M.json"[0] == 'M';
    ProjectionOfAnother(ga, Sample("b", "M\U{221A}", "2", 1));
    ProjectionOfAnother(gb, Sample("a", "M", "1", 1));
    OutdatedProjection(gb, Sample("b", "M\U{221A}", "2", 1));
  }

  lemma ScanPastAnothers(cpa: Directory, key: string, g: Grant, mine: string, hers: string, own: Json)
    requires cpa.Keys == {mine, hers} && mine != hers
    requires cpa[mine] == Doc(own) && IsManaged(own, key) && !HoldsRefreshToken(own) && HasJsonExtension(mine)
    requires Judge(hers, cpa, key, g) == Ignore
    ensures Scan([mine, hers], cpa, key, g) == Ok(Some((mine, own))) && Lists([mine, hers], cpa)
  {
    assert [mine, hers][1..] == [hers] && [hers][1..] == [];
    var found := Some((mine, own));
    assert ScanFrom([hers], found, cpa, key, g) == ScanFrom([], found, cpa, key, g) == Ok(found);
  }

  lemma SixTurns(f: Service, turns: seq<Turn>)
    requires |turns| == 6
    ensures var f1 := TakeTurn(f, turns[0]); var f2 := TakeTurn(f1, turns[1]);
            var f3 := TakeTurn(f2, turns[2]); var f4 := TakeTurn(f3, turns[3]);
            && TakeTurns(f, turns[..4]) == f4
            && TakeTurns(f, turns) == TakeTurn(TakeTurn(f4, turns[4]), turns[5])
            && (HonestTurn(f, turns[0]) && HonestTurn(f1, turns[1])
                && HonestTurn(f2, turns[2]) && HonestTurn(f3, turns[3]) ==>
                  HonestTurns(f, turns[..4]))
  {
    var f1 := TakeTurn(f, turns[0]);
    var f2 := TakeTurn(f1, turns[1]);
    var f3 := TakeTurn(f2, turns[2]);
    var f4 := TakeTurn(f3, turns[3]);
    FiveTurns(f, turns[0], turns[1], turns[2], turns[3], turns[4]);
    FourTurns(f, turns[0], turns[1], turns[2], turns[3]);
    assert turns[..4] == [turns[0], turns[1], turns[2], turns[3]];
    assert turns == [turns[0], turns[1], turns[2], turns[3], turns[4]] + [turns[5]];
    TurnsJoin(f, [turns[0], turns[1], turns[2], turns[3], turns[4]], [turns[5]]);
    var f5 := TakeTurn(f4, turns[4]);
    assert [turns[5]][1..] == [] && TakeTurns(f5, [turns[5]]) == TakeTurns(TakeTurn(f5, turns[5]), []);
  }
}
