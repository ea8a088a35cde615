/** Cancelling browser launches: at most one current launch per profile, each with a flag
    its worker polls, and a "close all" that no launch may outrun. */
module LaunchRegistry {
  import opened Basics

  /** A launch that has been admitted; it is finished once its worker has said so. */
  datatype Launch = Launch(name: string, flagged: bool, finished: bool)

  /** Launches are numbered in the order they were admitted. */
  datatype Registry = Registry(active: map<string, nat>, launches: seq<Launch>, closing: bool)

  datatype Event =
    | Begin(name: string)
    | Finish(id: nat)
    | Cancel(name: string)
    | BeginCloseAll
    | DropGuard

  function Flag(launches: seq<Launch>, id: nat): seq<Launch> {
    if id < |launches| then launches[id := launches[id].(flagged := true)] else launches
  }

  function BeginLaunch(r: Registry, name: string): Registry {
    if r.closing then r
    else
      var superseded := if name in r.active then Flag(r.launches, r.active[name]) else r.launches;
      Registry(r.active[name := |superseded|], superseded + [Launch(name, false, false)], false)
  }

  function FinishLaunch(r: Registry, id: nat): Registry {
    if |r.launches| <= id then r
    else
      var name := r.launches[id].name;
      r.(launches := r.launches[id := r.launches[id].(finished := true)],
         active := if name in r.active && r.active[name] == id then r.active - {name} else r.active)
  }

  function CancelLaunch(r: Registry, name: string): Registry {
    if name in r.active then r.(launches := Flag(r.launches, r.active[name])) else r
  }

  function FlagActive(r: Registry): seq<Launch> {
    seq(|r.launches|, i requires 0 <= i < |r.launches| =>
      if IsActive(r, i) then r.launches[i].(flagged := true) else r.launches[i])
  }

  predicate IsActive(r: Registry, id: nat)
    requires id < |r.launches|
  {
    r.launches[id].name in r.active && r.active[r.launches[id].name] == id
  }

  function CloseAll(r: Registry): Registry {
    if r.closing then r else r.(closing := true, launches := FlagActive(r))
  }

  function Step(r: Registry, ev: Event): Registry {
    match ev
    case Begin(name) => BeginLaunch(r, name)
    case Finish(id) => FinishLaunch(r, id)
    case Cancel(name) => CancelLaunch(r, name)
    case BeginCloseAll => CloseAll(r)
    case DropGuard => r.(closing := false)
  }

  function Run(r: Registry, evs: seq<Event>): Registry
    decreases |evs|
  {
    if evs == [] then r else Run(Step(r, evs[0]), evs[1..])
  }

  // ----- Safety -----

  predicate Newest(r: Registry, id: nat)
    requires id < |r.launches|
  {
    forall j | id < j < |r.launches| :: r.launches[j].name != r.launches[id].name
  }

  /** The map holds exactly the unfinished newest launches; an unfinished launch that is not
      its name's newest is flagged; and while closing, so is every unfinished launch. */
  predicate Safe(r: Registry) {
    && (forall n | n in r.active ::
          && r.active[n] < |r.launches| && r.launches[r.active[n]].name == n
          && !r.launches[r.active[n]].finished && Newest(r, r.active[n]))
    && (forall i | 0 <= i < |r.launches| && !r.launches[i].finished && Newest(r, i) ::
          r.launches[i].name in r.active && r.active[r.launches[i].name] == i)
    && (forall i | 0 <= i < |r.launches| && !r.launches[i].finished && !Newest(r, i) :: r.launches[i].flagged)
    && (r.closing ==> AllFlagged(r))
  }

  predicate AllFlagged(r: Registry) {
    forall i | 0 <= i < |r.launches| && !r.launches[i].finished :: r.launches[i].flagged
  }

  const EMPTY := Registry(map[], [], false)

  lemma BeginIsSafe(r: Registry, name: string)
    requires Safe(r)
    ensures Safe(BeginLaunch(r, name))
  {
    var r' := BeginLaunch(r, name);
    if !r.closing {
      forall i | 0 <= i < |r.launches|
        ensures Newest(r', i) <==> Newest(r, i) && r.launches[i].name != name
        ensures r'.launches[i].name == r.launches[i].name && r'.launches[i].finished == r.launches[i].finished
        ensures r.launches[i].flagged ==> r'.launches[i].flagged
      {
        if Newest(r', i) {
          assert r'.launches[|r.launches|].name == name;
          forall j | i < j < |r.launches|
            ensures r.launches[j].name != r.launches[i].name
          {
            assert r'.launches[j].name == r.launches[j].name;
          }
        }
      }
      assert Newest(r', |r.launches|);
    }
  }

  /** Steps that only set flags, or mark one launch finished, do not change which is newest. */
  lemma NewestDependsOnNames(r: Registry, r': Registry)
    requires |r.launches| == |r'.launches|
    requires forall i | 0 <= i < |r.launches| :: r.launches[i].name == r'.launches[i].name
    ensures forall i | 0 <= i < |r.launches| :: Newest(r, i) <==> Newest(r', i)
  {
  }

  lemma CloseAllIsSafe(r: Registry)
    requires Safe(r)
    ensures Safe(CloseAll(r)) && (!r.closing ==> AllFlagged(CloseAll(r)))
  {
    var r' := CloseAll(r);
    NewestDependsOnNames(r, r');
    forall i | 0 <= i < |r.launches| && !r.launches[i].finished
      ensures !r.closing ==> r'.launches[i].flagged
    {
      if Newest(r, i) {
        assert IsActive(r, i);
      }
    }
  }

  lemma FinishIsSafe(r: Registry, id: nat)
    requires Safe(r)
    ensures Safe(FinishLaunch(r, id))
  {
    var r' := FinishLaunch(r, id);
    NewestDependsOnNames(r, r');
    if id < |r.launches| {
      forall i | 0 <= i < |r.launches|
        ensures r'.launches[i].name == r.launches[i].name && r'.launches[i].flagged == r.launches[i].flagged
        ensures r'.launches[i].finished <==> r.launches[i].finished || i == id
      {
      }
      forall n | n in r'.active
        ensures r'.active[n] == r.active[n] && r.active[n] != id
      {
      }
    }
  }

  lemma CancelIsSafe(r: Registry, name: string)
    requires Safe(r)
    ensures Safe(CancelLaunch(r, name))
  {
    NewestDependsOnNames(r, CancelLaunch(r, name));
  }

  lemma StepIsSafe(r: Registry, ev: Event)
    requires Safe(r)
    ensures Safe(Step(r, ev))
  {
    match ev {
      case Begin(name) => BeginIsSafe(r, name);
      case BeginCloseAll => CloseAllIsSafe(r);
      case Finish(id) => FinishIsSafe(r, id);
      case Cancel(name) => CancelIsSafe(r, name);
      case DropGuard => NewestDependsOnNames(r, Step(r, ev));
    }
  }

  /** Whatever the order of calls from however many threads, a superseded launch is flagged
      and the map holds exactly the current ones. */
  lemma {:induction false} EveryInterleavingIsSafe(r: Registry, evs: seq<Event>)
    requires Safe(r)
    ensures Safe(Run(r, evs))
    decreases |evs|
  {
    if evs != [] {
      StepIsSafe(r, evs[0]);
      EveryInterleavingIsSafe(Step(r, evs[0]), evs[1..]);
    }
  }

  // ----- What each call does, told from the launches alone -----

  /** The launch is running and no later one has its name. */
  predicate Current(r: Registry, i: nat)
    requires i < |r.launches|
  {
    !r.launches[i].finished && Newest(r, i)
  }

  /** The launches are those of before, and of these exactly the ones in `also` are newly flagged. */
  ghost predicate OnlyFlags(r: Registry, r': Registry, also: iset<nat>) {
    && |r.launches| <= |r'.launches|
    && forall i | 0 <= i < |r.launches| ::
         && r'.launches[i].name == r.launches[i].name && r'.launches[i].finished == r.launches[i].finished
         && (r'.launches[i].flagged <==> r.launches[i].flagged || i in also)
  }

  /** While closing nothing begins. Otherwise one launch is added, running, unflagged and current
      for its name, and the launch that was current for the name, if there was one, is flagged. */
  lemma BeginMeaning(r: Registry, name: string)
    requires Safe(r)
    ensures var r' := Step(r, Begin(name));
            if r.closing then r' == r
            else
              && |r'.launches| == |r.launches| + 1 && r'.launches[|r.launches|] == Launch(name, false, false)
              && Current(r', |r.launches|) && !r'.closing
              && OnlyFlags(r, r', iset i: nat | i < |r.launches| && Current(r, i) && r.launches[i].name == name)
  {
  }

  /** A launch that finishes is marked as finished, and nothing else about any launch changes. */
  lemma FinishMeaning(r: Registry, id: nat)
    requires Safe(r) && id < |r.launches|
    ensures var r' := Step(r, Finish(id));
            && r'.closing == r.closing
            && r'.launches == r.launches[id := Launch(r.launches[id].name, r.launches[id].flagged, true)]
            && (Current(r, id) ==> r.launches[id].name !in r'.active)
  {
  }

  /** Cancelling a name flags its current launch, if there is one, and no other. */
  lemma CancelMeaning(r: Registry, name: string)
    requires Safe(r)
    ensures var r' := Step(r, Cancel(name));
            && r'.closing == r.closing && r'.active == r.active && |r'.launches| == |r.launches|
            && OnlyFlags(r, r', iset i: nat | i < |r.launches| && Current(r, i) && r.launches[i].name == name)
  {
  }

  /** Closing all flags exactly the current launches, unless somebody is closing already, and
      dropping the guard changes nothing but that launches are admitted again. */
  lemma CloseMeaning(r: Registry)
    requires Safe(r)
    ensures var r' := Step(r, BeginCloseAll);
            && r'.closing && r'.active == r.active && |r'.launches| == |r.launches|
            && (r.closing ==> r' == r)
            && (!r.closing ==> OnlyFlags(r, r', iset i: nat | i < |r.launches| && Current(r, i)))
    ensures var r' := Step(r, DropGuard);
            !r'.closing && r'.active == r.active && r'.launches == r.launches
  {
    var r' := Step(r, BeginCloseAll);
    forall i | 0 <= i < |r.launches|
      ensures Current(r, i) <==> IsActive(r, i)
    {
      if IsActive(r, i) {
        assert r.launches[i].name in r.active;
      }
    }
  }

  /** A launch that finishes late never removes a newer one. */
  lemma LateFinishRemovesNothingNewer(r: Registry, id: nat)
    requires Safe(r) && id < |r.launches|
    ensures var r' := FinishLaunch(r, id);
            && forall n | n in r.active && r.active[n] != id :: n in r'.active && r'.active[n] == r.active[n]
    ensures !Newest(r, id) ==> FinishLaunch(r, id).active == r.active
  {
  }

  /** From the start of "close all" until its guard drops, every unfinished launch is flagged,
      no launch begins, and the map only shrinks. */
  lemma {:induction false} NothingBeginsWhileClosing(r: Registry, evs: seq<Event>)
    requires Safe(r) && r.closing && DropGuard !in evs
    ensures var r' := Run(r, evs);
            && r'.closing && AllFlagged(r') && |r'.launches| == |r.launches|
            && r'.active.Keys <= r.active.Keys
            && forall n | n in r'.active :: r'.active[n] == r.active[n]
    decreases |evs|
  {
    if evs != [] {
      StepIsSafe(r, evs[0]);
      assert evs[0] in evs;
      NothingBeginsWhileClosing(Step(r, evs[0]), evs[1..]);
    }
  }

  /** An empty map, which is all that "close all" waits for, means that no unfinished launch
      is current: those left are superseded and flagged. */
  lemma EmptyMapLeavesOnlySuperseded(r: Registry, evs: seq<Event>)
    requires Safe(r) && Run(r, evs).active == map[]
    ensures var r' := Run(r, evs);
            forall i | 0 <= i < |r'.launches| && !r'.launches[i].finished :: !Newest(r', i) && r'.launches[i].flagged
  {
    EveryInterleavingIsSafe(r, evs);
  }

  /** Such a launch can be left: the wait returns while its worker still runs. */
  lemma EmptyMapCanLeaveOne()
    ensures var r := Run(EMPTY, [Begin("p"), Begin("p"), BeginCloseAll, Finish(1)]);
            r.active == map[] && |r.launches| == 2 && !r.launches[0].finished
  {
  }

  /** No unfinished launch has been superseded. */
  predicate NoneSuperseded(r: Registry) {
    forall i | 0 <= i < |r.launches| && !r.launches[i].finished :: Newest(r, i)
  }

  /** No launch begins over an unfinished one of its name. */
  predicate Orderly(r: Registry, evs: seq<Event>)
    decreases |evs|
  {
    evs != [] ==>
      && (evs[0].Begin? && !r.closing ==>
            forall i | 0 <= i < |r.launches| && r.launches[i].name == evs[0].name :: r.launches[i].finished)
      && Orderly(Step(r, evs[0]), evs[1..])
  }

  lemma OrderlyStep(r: Registry, ev: Event)
    requires NoneSuperseded(r) && Orderly(r, [ev]) && Safe(r)
    ensures NoneSuperseded(Step(r, ev))
  {
    var r' := Step(r, ev);
    if ev.Begin? && !r.closing {
      assert ev.name !in r.active;
      forall i | 0 <= i < |r.launches| && !r.launches[i].finished
        ensures Newest(r', i)
      {
        assert Newest(r, i) && r.launches[i].name != ev.name;
      }
    } else {
      NewestDependsOnNames(r, r');
    }
  }

  lemma {:induction false} OrderlyRunSupersedesNone(r: Registry, evs: seq<Event>)
    requires Safe(r) && NoneSuperseded(r) && Orderly(r, evs)
    ensures NoneSuperseded(Run(r, evs))
    decreases |evs|
  {
    if evs != [] {
      assert Orderly(Step(r, evs[0]), [evs[0]][1..]);
      OrderlyStep(r, evs[0]);
      StepIsSafe(r, evs[0]);
      OrderlyRunSupersedesNone(Step(r, evs[0]), evs[1..]);
    }
  }

  /** An empty map means that nothing runs exactly when no unfinished launch has been
      superseded; and so it always does where no launch begins over an unfinished one. */
  lemma EmptyMapMeansDoneExactlyWhen(r: Registry, evs: seq<Event>)
    requires Safe(r) && Run(r, evs).active == map[]
    ensures var r' := Run(r, evs);
            (forall i | 0 <= i < |r'.launches| :: r'.launches[i].finished) <==> NoneSuperseded(r')
    ensures NoneSuperseded(r) && Orderly(r, evs) ==> NoneSuperseded(Run(r, evs))
  {
    EmptyMapLeavesOnlySuperseded(r, evs);
    if NoneSuperseded(r) && Orderly(r, evs) {
      OrderlyRunSupersedesNone(r, evs);
    }
  }

  // ----- The registry itself -----

  // Each method takes one step of the state machine above, so a registry that starts
  // empty stays safe by EveryInterleavingIsSafe.

  class CancellationFlag {
    var raised: bool

    constructor ()
      ensures !raised
    {
      raised := false;
    }
  }

  class LaunchCancellationRegistry {
    var active: map<string, CancellationFlag>
    var closingAll: bool
    ghost var flags: seq<CancellationFlag>  // the flag of each launch admitted so far
    ghost var state: Registry

    /** The fields and the flag objects are those of the abstract state. */
    ghost predicate Valid()
      reads this, flags
    {
      && |flags| == |state.launches| && NoDuplicates(flags)
      && (forall i | 0 <= i < |flags| :: flags[i].raised == state.launches[i].flagged)
      && active.Keys == state.active.Keys
      && (forall n | n in active ::
            && state.active[n] < |flags| && active[n] == flags[state.active[n]] && state.launches[state.active[n]].name == n)
      && closingAll == state.closing
    }

    constructor ()
      ensures Valid() && state == EMPTY
    {
      active, closingAll, flags, state := map[], false, [], EMPTY;
    }

    method Begin(name: string) returns (token: CancellationFlag?)
      requires Valid()
      modifies this, flags
      ensures Valid() && state == BeginLaunch(old(state), name)
      ensures token == null <==> old(closingAll)
      ensures flags == if token == null then old(flags) else old(flags) + [token]
      ensures token != null ==> fresh(token)
    {
      if closingAll {
        return null;
      }
      if name in active {
        active[name].raised := true;
      }
      token := new CancellationFlag();
      active := active[name := token];
      flags := flags + [token];
      state := BeginLaunch(state, name);
    }

    method Finish(name: string, token: CancellationFlag, ghost id: nat)
      requires Valid() && id < |flags| && flags[id] == token && state.launches[id].name == name
      modifies this
      ensures Valid() && state == FinishLaunch(old(state), id) && flags == old(flags)
    {
      ghost var before := state;
      assert name in active ==> before.active[name] < |flags| && active[name] == flags[before.active[name]];
      if name in active && active[name] == token {
        assert before.active[name] == id;
        active := active - {name};
      }
      state := FinishLaunch(state, id);
    }

    method Cancel(name: string) returns (found: bool)
      requires Valid()
      modifies flags, this`state
      ensures Valid() && state == CancelLaunch(old(state), name) && flags == old(flags)
      ensures found <==> name in active
    {
      if name !in active {
        return false;
      }
      active[name].raised := true;
      state := CancelLaunch(state, name);
      return true;
    }

    method BeginCloseAll() returns (guard: bool)
      requires Valid()
      modifies this`closingAll, this`state, flags
      ensures Valid() && state == CloseAll(old(state)) && flags == old(flags)
      ensures guard <==> !old(closingAll)
    {
      if closingAll {
        return false;
      }
      closingAll := true;
      var pending := active.Keys;
      while pending != {}
        modifies flags
        invariant pending <= active.Keys && |flags| == |state.launches|
        invariant forall i | 0 <= i < |flags| ::
                    flags[i].raised == (state.launches[i].flagged ||
                                        (IsActive(state, i) && state.launches[i].name !in pending))
        decreases pending
      {
        var name :| name in pending;
        ghost var id, before := state.active[name], pending;
        assert active[name] == flags[id] && state.launches[id].name == name;
        active[name].raised := true;
        pending := pending - {name};
        forall i | 0 <= i < |flags|
          ensures flags[i].raised == (state.launches[i].flagged ||
                                      (IsActive(state, i) && state.launches[i].name !in pending))
        {
          assert flags[i] == flags[id] <==> i == id;
          assert IsActive(state, i) && state.launches[i].name == name <==> i == id;
        }
      }
      state := CloseAll(state);
      return true;
    }

    method DropGuard()
      requires Valid()
      modifies this`closingAll, this`state
      ensures Valid() && state == old(state).(closing := false) && flags == old(flags)
    {
      closingAll := false;
      state := state.(closing := false);
    }
  }
}
