/** Changing many accounts at once: each account is a separate call that may fail, and a
    failure takes the earlier calls back. */
module BulkMutation {
  import opened Basics

  /** What the window shows of an account when the operation starts. */
  datatype Shown<V> = Shown(name: string, value: V)

  predicate DistinctNames<V>(targets: seq<Shown<V>>) {
    forall i, j | 0 <= i < j < |targets| :: targets[i].name != targets[j].name
  }

  function NamesOf<V>(targets: seq<Shown<V>>): set<string> {
    set i | 0 <= i < |targets| :: targets[i].name
  }

  /** How the calls turn out: the call that fails first, if any, with the value it leaves on
      its account when it took partial effect; and which rollbacks fail, with what they leave
      when they did. */
  datatype Luck<V> = Luck(failsAt: nat, leaves: Option<V>, failedRollbacks: map<string, Option<V>>)

  /** What is on an account that had this value, after its rollback failed. */
  function Stays<V>(failed: map<string, Option<V>>, name: string, value: V): V {
    if name in failed && failed[name].Some? then failed[name].value else value
  }

  /** The backend after the first `k` targets were given a value. */
  function Assigned<V>(values: map<string, V>, targets: seq<Shown<V>>, value: V, k: nat): map<string, V>
    requires k <= |targets|
  {
    if k == 0 then values else Assigned(values, targets, value, k - 1)[targets[k - 1].name := value]
  }

  lemma NamesOfFront<V>(targets: seq<Shown<V>>, k: nat)
    requires 0 < k <= |targets|
    ensures NamesOf(targets[..k]) == NamesOf(targets[..k - 1]) + {targets[k - 1].name}
  {
    var front, shorter := targets[..k], targets[..k - 1];
    assert front == shorter + [targets[k - 1]];
    forall n | n in NamesOf(shorter) + {targets[k - 1].name}
      ensures n in NamesOf(front)
    {
      if n == targets[k - 1].name {
        assert front[k - 1].name == n;
      } else {
        var i :| 0 <= i < |shorter| && shorter[i].name == n;
        assert front[i].name == n;
      }
    }
  }

  lemma {:induction false} AssignedAt<V>(values: map<string, V>, targets: seq<Shown<V>>, value: V, k: nat)
    requires k <= |targets|
    ensures var r := Assigned(values, targets, value, k);
            && r.Keys == values.Keys + NamesOf(targets[..k])
            && (forall i | 0 <= i < k :: r[targets[i].name] == value)
            && (forall n | n in values && n !in NamesOf(targets[..k]) :: r[n] == values[n])
    decreases k
  {
    if k != 0 {
      AssignedAt(values, targets, value, k - 1);
      NamesOfFront(targets, k);
    }
  }

  /** The backend when the call that fails first has failed. */
  function Broken<V>(values: map<string, V>, targets: seq<Shown<V>>, value: V, luck: Luck<V>): map<string, V>
    requires luck.failsAt < |targets|
  {
    var changed := Assigned(values, targets, value, luck.failsAt);
    if luck.leaves.Some? then changed[targets[luck.failsAt].name := luck.leaves.value] else changed
  }

  /** No account is created, and none is changed but those called for. */
  lemma BrokenAt<V>(values: map<string, V>, targets: seq<Shown<V>>, value: V, luck: Luck<V>)
    requires luck.failsAt < |targets| && DistinctNames(targets) && NamesOf(targets) <= values.Keys
    ensures var r := Broken(values, targets, value, luck);
            && r.Keys == values.Keys
            && (forall i | 0 <= i < luck.failsAt :: targets[i].name in r && r[targets[i].name] == value)
            && targets[luck.failsAt].name in r
            && r[targets[luck.failsAt].name] ==
                 (if luck.leaves.Some? then luck.leaves.value else values[targets[luck.failsAt].name])
            && (forall n | n in values && n !in NamesOf(targets[..luck.failsAt + 1]) :: r[n] == values[n])
  {
    AssignedAt(values, targets, value, luck.failsAt);
    AssignedKeepsOthers(values, targets, value, luck.failsAt);
    var changed := Assigned(values, targets, value, luck.failsAt);
    FailingCallLeaves(values, changed, targets, value, luck);
  }

  lemma FailingCallLeaves<V>(values: map<string, V>, changed: map<string, V>, targets: seq<Shown<V>>, value: V,
                             luck: Luck<V>)
    requires luck.failsAt < |targets| && DistinctNames(targets) && NamesOf(targets) <= values.Keys
    requires changed.Keys == values.Keys
    requires forall i | 0 <= i < luck.failsAt :: targets[i].name in changed && changed[targets[i].name] == value
    requires forall n | n in values && n !in NamesOf(targets[..luck.failsAt]) :: changed[n] == values[n]
    ensures var failing := targets[luck.failsAt].name;
            var r := if luck.leaves.Some? then changed[failing := luck.leaves.value] else changed;
            && r.Keys == values.Keys && failing in r
            && (forall i | 0 <= i < luck.failsAt :: targets[i].name in r && r[targets[i].name] == value)
            && r[failing] == (if luck.leaves.Some? then luck.leaves.value else values[failing])
            && (forall n | n in values && n !in NamesOf(targets[..luck.failsAt + 1]) :: r[n] == values[n])
  {
    LastIsNamed(targets, luck.failsAt);
    assert targets[luck.failsAt].name !in NamesOf(targets[..luck.failsAt]);
  }

  /** Giving all targets a value changes them and nothing else. */
  lemma AllAssigned<V>(values: map<string, V>, targets: seq<Shown<V>>, value: V)
    requires NamesOf(targets) <= values.Keys
    ensures var r := Assigned(values, targets, value, |targets|);
            && r.Keys == values.Keys
            && (forall i | 0 <= i < |targets| :: targets[i].name in r && r[targets[i].name] == value)
            && (forall n | n in values && n !in NamesOf(targets) :: r[n] == values[n])
  {
    AssignedAt(values, targets, value, |targets|);
    assert targets[..|targets|] == targets;
    forall i | 0 <= i < |targets|
      ensures targets[i].name in values
    {
      assert targets[i].name in NamesOf(targets);
    }
  }

  lemma AssignedKeepsOthers<V>(values: map<string, V>, targets: seq<Shown<V>>, value: V, k: nat)
    requires k <= |targets| && NamesOf(targets) <= values.Keys
    ensures var r := Assigned(values, targets, value, k);
            r.Keys == values.Keys && forall n | n in values && n !in NamesOf(targets[..k]) :: r[n] == values[n]
    ensures targets[..|targets|] == targets
  {
  }

  /** What is on an account after its rollback: the shown value, or what the failed call left. */
  function Settled<V>(values: map<string, V>, shown: Shown<V>, failed: map<string, Option<V>>): V
    requires shown.name in values
  {
    if shown.name in failed then Stays(failed, shown.name, values[shown.name]) else shown.value
  }

  lemma NamesAreThere<V>(shown: seq<Shown<V>>, values: map<string, V>)
    requires NamesOf(shown) <= values.Keys
    ensures forall i | 0 <= i < |shown| :: shown[i].name in values
  {
    forall i | 0 <= i < |shown|
      ensures shown[i].name in values
    {
      assert shown[i].name in NamesOf(shown);
    }
  }

  class Backend<V> {
    var values: map<string, V>

    constructor (values: map<string, V>)
      ensures this.values == values
    {
      this.values := values;
    }

    /** Put the shown values back, newest change first. */
    method RollBack(applied: seq<Shown<V>>, failed: map<string, Option<V>>) returns (complete: bool)
      requires DistinctNames(applied) && NamesOf(applied) <= values.Keys
      modifies this
      ensures complete <==> NamesOf(applied) !! failed.Keys
      ensures values.Keys == old(values).Keys
      ensures forall i | 0 <= i < |applied| ::
                applied[i].name in values && values[applied[i].name] == Settled(old(values), applied[i], failed)
      ensures forall n | n in values && n !in NamesOf(applied) :: values[n] == old(values)[n]
    {
      complete := true;
      NamesAreThere(applied, values);
      var i := |applied|;
      while 0 < i
        invariant 0 <= i <= |applied|
        invariant complete <==> forall j | i <= j < |applied| :: applied[j].name !in failed
        invariant values.Keys == old(values).Keys
        invariant forall j | i <= j < |applied| :: values[applied[j].name] == Settled(old(values), applied[j], failed)
        invariant forall n | n in values && (forall j | i <= j < |applied| :: applied[j].name != n) ::
                    values[n] == old(values)[n]
      {
        i := i - 1;
        var name := applied[i].name;
        if name in failed {
          complete := false;
          if failed[name].Some? {
            values := values[name := failed[name].value];
          }
        } else {
          values := values[name := applied[i].value];
        }
      }
    }

    /** Take back the calls before the failing one. */
    method TakeBack(applied: seq<Shown<V>>, luck: Luck<V>,
                    ghost targets: seq<Shown<V>>, ghost value: V, ghost before: map<string, V>)
      returns (restored: bool)
      requires luck.failsAt < |targets| && DistinctNames(targets) && NamesOf(targets) <= before.Keys
      requires applied == targets[..luck.failsAt]
      requires values == Broken(before, targets, value, luck)
      modifies this
      ensures restored <==> NamesOf(targets[..luck.failsAt]) !! luck.failedRollbacks.Keys
      ensures values.Keys == before.Keys
      ensures restored ==> values == TakenBack(before, targets, luck)
      ensures forall i | 0 <= i < luck.failsAt ::
                targets[i].name in values
                && values[targets[i].name] == LeftOn(targets[i], value, luck)
      ensures forall n | n in values && n !in NamesOf(applied) :: n in old(values) && values[n] == old(values)[n]
    {
      ghost var broken := values;
      BrokenKeys(before, targets, value, luck);
      restored := RollBack(applied, luck.failedRollbacks);
      AfterTakingBack(before, broken, values, applied, targets, value, luck);
    }

    /** Give every target a value, or take back the calls that succeeded. The failing call
        itself is not taken back. */
    method RunAtomicBulkMutation(targets: seq<Shown<V>>, value: V, luck: Luck<V>) returns (done: bool, restored: bool)
      requires DistinctNames(targets) && NamesOf(targets) <= values.Keys
      modifies this
      ensures done <==> targets != [] && |targets| <= luck.failsAt
      ensures done ==> values == Assigned(old(values), targets, value, |targets|)
      ensures targets == [] ==> values == old(values)
      ensures !done && targets != [] ==>
                && (restored <==> NamesOf(targets[..luck.failsAt]) !! luck.failedRollbacks.Keys)
                && values.Keys == old(values).Keys
                && (restored ==> values == TakenBack(old(values), targets, luck))
                && (forall i | 0 <= i < luck.failsAt ::
                      values[targets[i].name] == LeftOn(targets[i], value, luck))
                && (forall n | n in values && n !in NamesOf(targets[..luck.failsAt]) ::
                      && n in Broken(old(values), targets, value, luck)
                      && values[n] == Broken(old(values), targets, value, luck)[n])
                && (forall n | n in values && n !in NamesOf(targets[..luck.failsAt + 1]) :: values[n] == old(values)[n])
    {
      if targets == [] {
        return false, true;
      }
      var applied: seq<Shown<V>> := [];
      for i := 0 to |targets|
        invariant applied == targets[..i] && i <= luck.failsAt
        invariant values == Assigned(old(values), targets, value, i)
      {
        AssignedAt(old(values), targets, value, i);
        if i == luck.failsAt {
          if luck.leaves.Some? {
            values := values[targets[i].name := luck.leaves.value];
          }
          BrokenAt(old(values), targets, value, luck);
          LastIsNamed(targets, i);
          restored := TakeBack(applied, luck, targets, value, old(values));
          return false, restored;
        }
        values := values[targets[i].name := value];
        applied := applied + [targets[i]];
      }
      AssignedAt(old(values), targets, value, |targets|);
      return true, true;
    }

    /** Clear every target, or take back every attempted call, the failing one included. */
    method ClearAll(targets: seq<Shown<V>>, cleared: V, luck: Luck<V>) returns (done: bool, attempted: seq<Shown<V>>)
      requires DistinctNames(targets) && NamesOf(targets) <= values.Keys
      modifies this
      ensures done <==> |targets| <= luck.failsAt
      ensures attempted == Attempted(targets, luck)
      ensures values == AfterClearing(old(values), targets, cleared, luck)
      ensures values.Keys == old(values).Keys
      ensures forall n | n in values && n !in NamesOf(attempted) :: values[n] == old(values)[n]
    {
      ClearingKeepsOthers(values, targets, cleared, luck);
      attempted := [];
      for i := 0 to |targets|
        invariant attempted == targets[..i] && i <= luck.failsAt
        invariant values == Assigned(old(values), targets, cleared, i)
      {
        attempted := attempted + [targets[i]];
        if i == luck.failsAt {
          if luck.leaves.Some? {
            values := values[targets[i].name := luck.leaves.value];
          }
          return false, attempted;
        }
        values := values[targets[i].name := cleared];
      }
      return true, attempted;
    }
  }

  /** The backend when the clearing is through or its failing call has failed. */
  function AfterClearing<V>(values: map<string, V>, targets: seq<Shown<V>>, cleared: V, luck: Luck<V>): map<string, V> {
    if |targets| <= luck.failsAt then Assigned(values, targets, cleared, |targets|)
    else Broken(values, targets, cleared, luck)
  }

  lemma ClearingKeepsOthers<V>(values: map<string, V>, targets: seq<Shown<V>>, cleared: V, luck: Luck<V>)
    requires DistinctNames(targets) && NamesOf(targets) <= values.Keys
    ensures var r := AfterClearing(values, targets, cleared, luck);
            && r.Keys == values.Keys
            && forall n | n in r && n !in NamesOf(Attempted(targets, luck)) :: n in values && r[n] == values[n]
  {
    if |targets| <= luck.failsAt {
      AssignedKeepsOthers(values, targets, cleared, |targets|);
    } else {
      BrokenAt(values, targets, cleared, luck);
    }
  }

  lemma LastIsNamed<V>(targets: seq<Shown<V>>, i: nat)
    requires i < |targets|
    ensures targets[i].name in NamesOf(targets[..i + 1]) && targets[i].name in NamesOf(targets)
    ensures NamesOf(targets[..i]) <= NamesOf(targets[..i + 1]) <= NamesOf(targets)
  {
  }

  lemma NamesOfPrefix<V>(targets: seq<Shown<V>>, i: nat, j: nat)
    requires i <= j <= |targets|
    ensures NamesOf(targets[..i]) <= NamesOf(targets[..j])
  {
  }

  /** What a failed bulk change with all its rollbacks leaves: shown values on the accounts
      that had been changed, and on the failing one whatever its call left. */
  function TakenBack<V>(values: map<string, V>, targets: seq<Shown<V>>, luck: Luck<V>): map<string, V>
    requires luck.failsAt < |targets|
  {
    var failing := targets[luck.failsAt].name;
    var base := if luck.leaves.Some? then values[failing := luck.leaves.value] else values;
    Shows(base, targets, luck.failsAt)
  }

  /** The shown values of the first `k` targets over a backend. */
  function Shows<V>(values: map<string, V>, targets: seq<Shown<V>>, k: nat): map<string, V>
    requires k <= |targets|
  {
    if k == 0 then values else Shows(values, targets, k - 1)[targets[k - 1].name := targets[k - 1].value]
  }

  lemma {:induction false} ShowsAt<V>(values: map<string, V>, targets: seq<Shown<V>>, k: nat)
    requires k <= |targets| && DistinctNames(targets)
    ensures var r := Shows(values, targets, k);
            && r.Keys == values.Keys + NamesOf(targets[..k])
            && (forall i | 0 <= i < k :: r[targets[i].name] == targets[i].value)
            && (forall n | n in values && n !in NamesOf(targets[..k]) :: r[n] == values[n])
    decreases k
  {
    if k != 0 {
      ShowsAt(values, targets, k - 1);
      NamesOfFront(targets, k);
    }
  }

  lemma TakenBackAt<V>(values: map<string, V>, targets: seq<Shown<V>>, luck: Luck<V>)
    requires luck.failsAt < |targets| && DistinctNames(targets) && NamesOf(targets) <= values.Keys
    ensures var r := TakenBack(values, targets, luck); var failing := targets[luck.failsAt].name;
            && r.Keys == values.Keys
            && (forall i | 0 <= i < luck.failsAt :: r[targets[i].name] == targets[i].value)
            && r[failing] == (if luck.leaves.Some? then luck.leaves.value else values[failing])
            && (forall n | n in values && n != failing && n !in NamesOf(targets[..luck.failsAt]) :: r[n] == values[n])
  {
    var failing := targets[luck.failsAt].name;
    var base := if luck.leaves.Some? then values[failing := luck.leaves.value] else values;
    assert failing in NamesOf(targets);
    NamesOfPrefix(targets, luck.failsAt, |targets|);
    assert targets[..|targets|] == targets;
    ShowsAt(base, targets, luck.failsAt);
    assert failing !in NamesOf(targets[..luck.failsAt]);
  }

  /** What is on an account that was given the value, after a rollback was tried. */
  function LeftOn<V>(shown: Shown<V>, value: V, luck: Luck<V>): V {
    if shown.name in luck.failedRollbacks then Stays(luck.failedRollbacks, shown.name, value) else shown.value
  }

  lemma BrokenKeys<V>(before: map<string, V>, targets: seq<Shown<V>>, value: V, luck: Luck<V>)
    requires luck.failsAt < |targets| && DistinctNames(targets) && NamesOf(targets) <= before.Keys
    ensures Broken(before, targets, value, luck).Keys == before.Keys
    ensures DistinctNames(targets[..luck.failsAt]) && NamesOf(targets[..luck.failsAt]) <= before.Keys
  {
    BrokenAt(before, targets, value, luck);
    NamesOfPrefix(targets, luck.failsAt, |targets|);
    assert targets[..|targets|] == targets;
  }

  lemma AfterTakingBack<V>(before: map<string, V>, broken: map<string, V>, after: map<string, V>, applied: seq<Shown<V>>,
                           targets: seq<Shown<V>>, value: V, luck: Luck<V>)
    requires luck.failsAt < |targets| && DistinctNames(targets) && NamesOf(targets) <= before.Keys
    requires broken == Broken(before, targets, value, luck) && applied == targets[..luck.failsAt]
    requires after.Keys == broken.Keys
    requires forall i | 0 <= i < |applied| ::
               && applied[i].name in broken && applied[i].name in after
               && after[applied[i].name] == Settled(broken, applied[i], luck.failedRollbacks)
    requires forall n | n in after && n !in NamesOf(applied) :: after[n] == broken[n]
    ensures NamesOf(applied) !! luck.failedRollbacks.Keys ==> after == TakenBack(before, targets, luck)
    ensures forall i | 0 <= i < luck.failsAt ::
              targets[i].name in after && after[targets[i].name] == LeftOn(targets[i], value, luck)
  {
    forall i | 0 <= i < luck.failsAt
      ensures targets[i].name in broken && targets[i].name in after
      ensures after[targets[i].name] == Settled(broken, targets[i], luck.failedRollbacks)
    {
      assert applied[i] == targets[i];
    }
    OneByOne(before, broken, after, targets, value, luck);
    if NamesOf(applied) !! luck.failedRollbacks.Keys {
      BrokenKeys(before, targets, value, luck);
      forall i | 0 <= i < luck.failsAt
        ensures after[applied[i].name] == applied[i].value
      {
        assert applied[i].name in NamesOf(applied);
      }
      AllTakenBack(before, broken, after, targets, value, luck);
    }
  }

  /** Rolled back or not, account by account. */
  lemma OneByOne<V>(before: map<string, V>, broken: map<string, V>, after: map<string, V>,
                    targets: seq<Shown<V>>, value: V, luck: Luck<V>)
    requires luck.failsAt < |targets| && DistinctNames(targets) && NamesOf(targets) <= before.Keys
    requires broken == Broken(before, targets, value, luck)
    requires after.Keys == broken.Keys
    requires forall i | 0 <= i < luck.failsAt ::
               && targets[i].name in broken && targets[i].name in after
               && after[targets[i].name] == Settled(broken, targets[i], luck.failedRollbacks)
    ensures forall i | 0 <= i < luck.failsAt ::
              targets[i].name in after
              && after[targets[i].name] == LeftOn(targets[i], value, luck)
  {
    BrokenAt(before, targets, value, luck);
  }

  lemma AllTakenBack<V>(before: map<string, V>, broken: map<string, V>, after: map<string, V>,
                        targets: seq<Shown<V>>, value: V, luck: Luck<V>)
    requires luck.failsAt < |targets| && DistinctNames(targets) && NamesOf(targets) <= before.Keys
    requires broken == Broken(before, targets, value, luck)
    requires after.Keys == broken.Keys && NamesOf(targets[..luck.failsAt]) <= after.Keys
    requires forall i | 0 <= i < luck.failsAt :: after[targets[..luck.failsAt][i].name] == targets[..luck.failsAt][i].value
    requires forall n | n in broken && n !in NamesOf(targets[..luck.failsAt]) :: after[n] == broken[n]
    ensures after == TakenBack(before, targets, luck)
  {
    var r := TakenBack(before, targets, luck);
    var failing := targets[luck.failsAt].name;
    AssignedAt(before, targets, value, luck.failsAt);
    TakenBackAt(before, targets, luck);
    NamesOfPrefix(targets, luck.failsAt, |targets|);
    assert targets[..|targets|] == targets;
    assert failing in NamesOf(targets) && failing !in NamesOf(targets[..luck.failsAt]);
    forall n | n in after
      ensures after[n] == r[n]
    {
      if n in NamesOf(targets[..luck.failsAt]) {
        var i :| 0 <= i < luck.failsAt && targets[..luck.failsAt][i].name == n;
        assert after[n] == targets[i].value == r[n];
      }
    }
  }

  /** A failed bulk change whose rollbacks all succeed leaves the backend as it was exactly
      when the window showed the true value of every account already changed and the
      failing call left its account alone. */
  lemma BulkIsAllOrNothingExactlyWhen<V>(values: map<string, V>, targets: seq<Shown<V>>, luck: Luck<V>)
    requires luck.failsAt < |targets| && DistinctNames(targets) && NamesOf(targets) <= values.Keys
    ensures targets[luck.failsAt].name in values && (forall i | 0 <= i < |targets| :: targets[i].name in values)
    ensures TakenBack(values, targets, luck) == values <==>
              && (forall i | 0 <= i < luck.failsAt :: targets[i].value == values[targets[i].name])
              && (luck.leaves.Some? ==> luck.leaves.value == values[targets[luck.failsAt].name])
  {
    forall i | 0 <= i < |targets|
      ensures targets[i].name in values
    {
      assert targets[i].name in NamesOf(targets);
    }
    TakenBackAt(values, targets, luck);
    var r := TakenBack(values, targets, luck);
    if && (forall i | 0 <= i < luck.failsAt :: targets[i].value == values[targets[i].name])
       && (luck.leaves.Some? ==> luck.leaves.value == values[targets[luck.failsAt].name])
    {
      forall n | n in values
        ensures r[n] == values[n]
      {
        if n in NamesOf(targets[..luck.failsAt]) {
          var i :| 0 <= i < luck.failsAt && targets[..luck.failsAt][i].name == n;
          assert r[n] == targets[i].value;
        }
      }
    }
  }

  const BEFORE: map<string, int> := map["a" := 1, "b" := 1]
  const OUTDATED: seq<Shown<int>> := [Shown("a", 0), Shown("b", 1)]
  const TRUE_VALUES: seq<Shown<int>> := [Shown("a", 1), Shown("b", 1)]

  /** Two changes whose second call fails and whose rollbacks all succeed, that are not undone:
      the window showed an outdated value of the first account, which is now on it; or the
      failing call took partial effect. */
  lemma BulkChangeThatIsNotUndone()
    ensures DistinctNames(OUTDATED) && NamesOf(OUTDATED) <= BEFORE.Keys
    ensures DistinctNames(TRUE_VALUES) && NamesOf(TRUE_VALUES) <= BEFORE.Keys
    ensures TakenBack(BEFORE, OUTDATED, Luck(1, None, map[])) == map["a" := 0, "b" := 1]
    ensures TakenBack(BEFORE, TRUE_VALUES, Luck(1, Some(2), map[])) == map["a" := 1, "b" := 2]
  {
    assert Shows(BEFORE, OUTDATED, 0) == BEFORE;
    var partial := BEFORE["b" := 2];
    assert Shows(partial, TRUE_VALUES, 0) == partial;
    assert TakenBack(BEFORE, TRUE_VALUES, Luck(1, Some(2), map[])) == Shows(partial, TRUE_VALUES, 1) == partial["a" := 1];
  }

  // ----- Deleting a tag -----

  datatype Outcome = ScopeChanged | Deleted | RolledBack | RollbackFailed

  /** A member of the tag as one list shows it. */
  datatype Member = Member(profile: string, name: string, path: string, trashed: bool)

  function ByProfile(members: seq<Member>): map<string, Member> {
    if members == [] then map[]
    else ByProfile(members[..|members| - 1])[members[|members| - 1].profile := members[|members| - 1]]
  }

  predicate SameTagMembers(confirmed: seq<Member>, current: seq<Member>) {
    var byProfile := ByProfile(confirmed);
    |current| == |byProfile| && forall m | m in current :: m.profile in byProfile && byProfile[m.profile] == m
  }

  lemma {:induction false} ByProfileIsConfirmed(confirmed: seq<Member>)
    ensures forall p | p in ByProfile(confirmed) ::
              ByProfile(confirmed)[p] in confirmed && ByProfile(confirmed)[p].profile == p
    decreases |confirmed|
  {
    if confirmed != [] {
      ByProfileIsConfirmed(confirmed[..|confirmed| - 1]);
    }
  }

  /** The scope never grows past what was confirmed: every account about to be changed was on
      the confirmed list, unchanged. */
  lemma OnlyConfirmedMembers(confirmed: seq<Member>, current: seq<Member>)
    requires SameTagMembers(confirmed, current)
    ensures forall m | m in current :: m in confirmed
  {
    ByProfileIsConfirmed(confirmed);
  }

  predicate DistinctProfiles(members: seq<Member>) {
    forall i, j | 0 <= i < j < |members| :: members[i].profile != members[j].profile
  }

  /** The last member comes with a profile of its own. */
  lemma LastIsNew(front: seq<Member>, last: Member)
    requires DistinctProfiles(front + [last])
    ensures DistinctProfiles(front) && last.profile !in ByProfile(front)
  {
    var members := front + [last];
    assert forall i | 0 <= i < |front| :: members[i] == front[i];
    assert members[|front|] == last;
    ByProfileIsConfirmed(front);
    forall p | p in ByProfile(front)
      ensures p != last.profile
    {
      var k :| 0 <= k < |front| && front[k] == ByProfile(front)[p];
    }
  }

  /** In a list that names each profile once, each member is the one of its profile. */
  lemma {:induction false} EachByItsProfile(members: seq<Member>)
    requires DistinctProfiles(members)
    ensures var byProfile := ByProfile(members);
            |byProfile| == |members| && forall m | m in members :: m.profile in byProfile && byProfile[m.profile] == m
    decreases |members|
  {
    if members != [] {
      var last, front := members[|members| - 1], members[..|members| - 1];
      assert members == front + [last];
      LastIsNew(front, last);
      EachByItsProfile(front);
    }
  }

  /** In lists that name each profile once, the scope is the confirmed one exactly when both name
      the same members, in whatever order. */
  lemma SameTagMembersExactlyWhen(confirmed: seq<Member>, current: seq<Member>)
    requires DistinctProfiles(confirmed) && DistinctProfiles(current)
    ensures SameTagMembers(confirmed, current) <==> forall m :: m in confirmed <==> m in current
  {
    EachByItsProfile(confirmed);
    EachByItsProfile(current);
    ByProfileIsConfirmed(confirmed);
    ByProfileIsConfirmed(current);
    var a, b := ByProfile(confirmed), ByProfile(current);
    if SameTagMembers(confirmed, current) {
      assert b.Keys <= a.Keys && |b.Keys| == |b| == |a| == |a.Keys|;
      SameSize(b.Keys, a.Keys);
      forall m | m in confirmed
        ensures m in current
      {
        assert m.profile in b.Keys && b[m.profile] in current;
      }
    }
    if forall m :: m in confirmed <==> m in current {
      assert a == b;
    }
  }

  lemma SameSize<T>(a: set<T>, b: set<T>)
    requires a <= b && |a| == |b|
    ensures a == b
  {
    assert b == a + (b - a);
    assert |b - a| == 0;
  }

  predicate NamesAConfirmed(confirmed: seq<Member>, name: string) {
    exists m | m in confirmed :: m.name == name
  }

  lemma OnlyConfirmedChange<V>(before: map<string, V>, changed: seq<Shown<V>>, cleared: V,
                               confirmed: seq<Member>, current: seq<Member>)
    requires SameTagMembers(confirmed, current) && |changed| == |current|
    requires forall i | 0 <= i < |changed| :: changed[i].name == current[i].name && changed[i].name in before
    ensures var after := Assigned(before, changed, cleared, |changed|);
            forall n | n in after && n in before && after[n] != before[n] :: NamesAConfirmed(confirmed, n)
  {
    OnlyConfirmedMembers(confirmed, current);
    AssignedAt(before, changed, cleared, |changed|);
    var after := Assigned(before, changed, cleared, |changed|);
    forall n | n in after && n in before && after[n] != before[n]
      ensures NamesAConfirmed(confirmed, n)
    {
      var i :| 0 <= i < |changed| && changed[..|changed|][i].name == n;
      assert current[i] in current;
    }
  }

  /** Deleting a tag from the accounts just read. Whatever part of the work failed, and even
      if the failing call took partial effect, an answer other than a failed rollback means
      all of it happened or none of it did. */
  method ConfirmDeleteTag<V>(backend: Backend<V>, confirmed: seq<Member>, current: seq<Member>,
                             changed: seq<Shown<V>>, cleared: V, tag: string, presets: seq<string>,
                             luck: Luck<V>, presetsSaved: bool, refreshed: bool, presetsRestored: bool)
    returns (outcome: Outcome, presets': seq<string>)
    requires DistinctNames(changed) && |changed| == |current|
    requires forall i | 0 <= i < |changed| ::
               && changed[i].name == current[i].name && changed[i].name in backend.values
               && backend.values[changed[i].name] == changed[i].value
    modifies backend
    ensures outcome.ScopeChanged? <==> !SameTagMembers(confirmed, current)
    ensures outcome.Deleted? <==>
              SameTagMembers(confirmed, current) && |changed| <= luck.failsAt && presetsSaved && refreshed
    ensures outcome.Deleted? ==> forall n | n in backend.values && n in old(backend.values)
                                            && backend.values[n] != old(backend.values)[n] :: NamesAConfirmed(confirmed, n)
    ensures outcome.RolledBack? <==>
              && SameTagMembers(confirmed, current) && !(|changed| <= luck.failsAt && presetsSaved && refreshed)
              && NamesOf(Attempted(changed, luck)) !! luck.failedRollbacks.Keys
              && !(|changed| <= luck.failsAt && presetsSaved && !presetsRestored)
    ensures outcome.ScopeChanged? || outcome.RolledBack? ==> backend.values == old(backend.values) && presets' == presets
    ensures outcome.RollbackFailed? ==>
              && backend.values.Keys == old(backend.values).Keys
              && (forall n | n in backend.values ::
                    var broken := AfterClearing(old(backend.values), changed, cleared, luck);
                    && n in broken
                    && backend.values[n] ==
                         if n in luck.failedRollbacks && n in NamesOf(Attempted(changed, luck))
                         then Stays(luck.failedRollbacks, n, broken[n]) else old(backend.values)[n])
              && presets' == if |changed| <= luck.failsAt && presetsSaved && !presetsRestored then WithoutTag(presets, tag)
                             else presets
    ensures outcome.Deleted? ==>
              && backend.values == Assigned(old(backend.values), changed, cleared, |changed|)
              && presets' == WithoutTag(presets, tag)
  {
    presets' := presets;
    if !SameTagMembers(confirmed, current) {
      return ScopeChanged, presets;
    }
    ghost var before := backend.values;
    assert NamesOf(changed) <= backend.values.Keys;
    var done, attempted := backend.ClearAll(changed, cleared, luck);
    ghost var broken := backend.values;
    var written := false;
    if done {
      if presetsSaved {
        presets' := WithoutTag(presets, tag);
        written := true;
        if refreshed {
          OnlyConfirmedChange(before, changed, cleared, confirmed, current);
          return Deleted, presets';
        }
      }
    }
    assert forall i | 0 <= i < |attempted| :: attempted[i] == changed[i];
    var complete := backend.RollBack(attempted, luck.failedRollbacks);
    RestoresEach(before, broken, backend.values, attempted, luck.failedRollbacks);
    var presetsStuck := written && !presetsRestored;
    if written && presetsRestored {
      presets' := presets;
    }
    outcome := if complete && !presetsStuck then RolledBack else RollbackFailed;
  }

  /** Showing the true values again gives back the start on every touched account whose
      rollback succeeds, and changes no other. */
  lemma RestoresEach<V>(before: map<string, V>, broken: map<string, V>, after: map<string, V>, attempted: seq<Shown<V>>,
                        failed: map<string, Option<V>>)
    requires broken.Keys == before.Keys && after.Keys == broken.Keys
    requires forall i | 0 <= i < |attempted| ::
               && attempted[i].name in before && before[attempted[i].name] == attempted[i].value
               && after[attempted[i].name] == Settled(broken, attempted[i], failed)
    requires forall n | n in after && n !in NamesOf(attempted) :: after[n] == broken[n] == before[n]
    ensures forall n | n in after ::
              after[n] == if n in failed && n in NamesOf(attempted) then Stays(failed, n, broken[n]) else before[n]
    ensures NamesOf(attempted) !! failed.Keys ==> after == before
  {
    forall n | n in after
      ensures after[n] == if n in failed && n in NamesOf(attempted) then Stays(failed, n, broken[n]) else before[n]
    {
      if n in NamesOf(attempted) {
        var i :| 0 <= i < |attempted| && attempted[i].name == n;
      }
    }
  }

  /** The accounts a deletion called for: up to and with the one whose call failed. */
  function Attempted<V>(changed: seq<Shown<V>>, luck: Luck<V>): seq<Shown<V>> {
    if |changed| <= luck.failsAt then changed else changed[..luck.failsAt + 1]
  }

  function WithoutTag(presets: seq<string>, tag: string): (r: seq<string>)
    ensures multiset(r) == multiset(presets)[tag := 0]
  {
    assert presets != [] ==> presets == [presets[0]] + presets[1..];
    if presets == [] then []
    else (if presets[0] == tag then [] else [presets[0]]) + WithoutTag(presets[1..], tag)
  }

  lemma WithoutTagUnfolds(head: string, rest: seq<string>, tag: string)
    ensures WithoutTag([head] + rest, tag) == (if head == tag then [] else [head]) + WithoutTag(rest, tag)
  {
    assert ([head] + rest)[1..] == rest;
  }

  lemma Reassociated<T>(head: T, front: seq<T>, back: seq<T>)
    ensures [head] + (front + back) == [head] + front + back
  {
  }

  lemma {:induction false} FrontIsKept(before: seq<string>, rest: seq<string>, tag: string)
    requires tag !in before
    ensures WithoutTag(before + rest, tag) == before + WithoutTag(rest, tag)
    decreases |before|
  {
    if before == [] {
      assert before + rest == rest;
    } else {
      var head, front := before[0], before[1..];
      assert before == [head] + front;
      FrontIsKept(front, rest, tag);
      Reassociated(head, front, rest);
      WithoutTagUnfolds(head, front + rest, tag);
      Reassociated(head, front, WithoutTag(rest, tag));
    }
  }

  lemma {:induction false} OthersAreKept(presets: seq<string>, tag: string)
    requires tag !in presets
    ensures WithoutTag(presets, tag) == presets
    decreases |presets|
  {
    if presets != [] {
      OthersAreKept(presets[1..], tag);
    }
  }

  /** Removing the tag keeps all the other presets in their order: those before the first mention
      of it, as they are, and then what is left of those after it. */
  lemma OthersKeepTheirOrder(before: seq<string>, rest: seq<string>, tag: string)
    requires tag !in before
    ensures WithoutTag(before, tag) == before
    ensures WithoutTag(before + ([tag] + rest), tag) == before + WithoutTag(rest, tag)
  {
    OthersAreKept(before, tag);
    var more := [tag] + rest;
    FrontIsKept(before, more, tag);
    WithoutTagUnfolds(tag, rest, tag);
    assert [] + WithoutTag(rest, tag) == WithoutTag(rest, tag);
  }
}
