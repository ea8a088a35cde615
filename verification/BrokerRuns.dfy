/** Runs of the Broker on one account: calls in any order, each cut off after any number
    of durable steps, with the outside world editing the consumer directory in between.
    The account lock makes calls on one account exclusive, so a refused (busy) call is a
    call cut off before its first step; a scheduler pass is a refresh and then a sync.

    Every durable step of every call is one of the legal steps below. Invariants are then
    proved per step, not per call. */
module BrokerRuns {
  import opened Basics
  import opened Grants
  import opened CpaDirectory
  import opened BrokerPlans

  datatype Call =
    | Import(body: GrantBody, now: nat)
    | Refresh(force: bool, now: nat, reply: Reply)
    | SetCpa(enabled: bool, hasDirectory: bool)
    | Acknowledge(generation: nat)
    | Sync(dir: DirectoryState, now: nat, fault: Fault)

  datatype Event = Perform(call: Call, steps: nat) | Outside(cpa: Directory)

  function PlanOf(w: World, key: string, call: Call): Plan {
    match call
    case Import(body, now) => ImportPlan(w.slot, key, body, now)
    case Refresh(force, now, reply) => RefreshPlan(w.slot, force, now, reply)
    case SetCpa(enabled, hasDirectory) => SetCpaPlan(w.slot, enabled, hasDirectory)
    case Acknowledge(generation) => AcknowledgePlan(w.slot, generation)
    case Sync(dir, now, fault) => SyncPlan(w.slot, w.cpa, key, dir, now, fault)
  }

  function Step(w: World, key: string, ev: Event): World {
    match ev
    case Perform(call, steps) => RunPlan(w, PlanOf(w, key, call), steps)
    case Outside(cpa) => w.(cpa := cpa)
  }

  function Run(w: World, key: string, evs: seq<Event>): World
    decreases |evs|
  {
    if evs == [] then w else Run(Step(w, key, evs[0]), key, evs[1..])
  }

  // ----- History -----

  function Last(log: seq<Effect>): Option<Effect> {
    if log == [] then None else Some(log[|log| - 1])
  }

  function SentTokens(log: seq<Effect>): set<string> {
    set i | 0 <= i < |log| && log[i].Send? :: log[i].token
  }

  lemma SentGrows(log: seq<Effect>, e: Effect)
    ensures SentTokens(log + [e]) == SentTokens(log) + (if e.Send? then {e.token} else {})
  {
    forall t | t in SentTokens(log)
      ensures t in SentTokens(log + [e])
    {
      var i :| 0 <= i < |log| && log[i].Send? && log[i].token == t;
      assert (log + [e])[i] == log[i];
    }
    if e.Send? {
      assert (log + [e])[|log|] == e;
    }
  }

  // ----- What the outside world is trusted for -----

  /** The consumer may delete the account's file or flip its "disabled" switch; all other
      files may change in any way that does not forge the account's marker. */
  predicate OutsideAllowed(before: Directory, after: Directory, key: string) {
    forall n | n in after && IsOwnFile(n, after, key) ::
      IsOwnFile(n, before, key) && SameButDisabled(before[n].value, after[n].value)
  }

  predicate SameButDisabled(a: Json, b: Json) {
    a.JObj? && b.JObj? && a.fields - {Disabled} == b.fields - {Disabled}
  }

  /** An accepted import and a rotated token bring tokens not sent before; a directory
      listing is complete. */
  predicate HonestCall(w: World, key: string, ev: Event) {
    match ev
    case Outside(_) => true
    case Perform(Import(body, now), _) =>
      var plan := PlanOf(w, key, ev.call);
      plan.Then? && plan.effect.InstallImport? ==> plan.effect.grant.refreshToken !in SentTokens(w.log)
    case Perform(Refresh(_, _, reply), _) =>
      reply.Tokens? && reply.refresh.Some? && w.slot.canonical.Some? ==>
        reply.refresh.value == w.slot.canonical.value.refreshToken || reply.refresh.value !in SentTokens(w.log)
    case Perform(Sync(dir, _, _), _) => dir.Listed? ==> Lists(dir.names, w.cpa)
    case Perform(_, _) => true
  }

  /** The outside world also keeps to its part of the directory. */
  predicate Honest(w: World, key: string, ev: Event) {
    HonestCall(w, key, ev) && (ev.Outside? ==> OutsideAllowed(w.cpa, ev.cpa, key))
  }

  predicate HonestCallRun(w: World, key: string, evs: seq<Event>)
    decreases |evs|
  {
    evs != [] ==> HonestCall(w, key, evs[0]) && HonestCallRun(Step(w, key, evs[0]), key, evs[1..])
  }

  predicate HonestRun(w: World, key: string, evs: seq<Event>)
    decreases |evs|
  {
    evs != [] ==> Honest(w, key, evs[0]) && HonestRun(Step(w, key, evs[0]), key, evs[1..])
  }

  lemma {:induction false} RunJoins(w: World, key: string, a: seq<Event>, b: seq<Event>)
    ensures Run(w, key, a + b) == Run(Run(w, key, a), key, b)
    ensures HonestRun(w, key, a) && HonestRun(Run(w, key, a), key, b) ==> HonestRun(w, key, a + b)
    ensures HonestCallRun(w, key, a) && HonestCallRun(Run(w, key, a), key, b) ==> HonestCallRun(w, key, a + b)
    decreases |a|
  {
    if a == [] {
      assert a + b == b;
    } else {
      assert (a + b)[1..] == a[1..] + b;
      RunJoins(Step(w, key, a[0]), key, a[1..], b);
    }
  }

  // ----- Legal steps -----

  /** Every file of the account holds this grant's current credential. */
  predicate FilesCurrent(cpa: Directory, key: string, g: Grant) {
    forall n | n in cpa && IsOwnFile(n, cpa, key) :: HoldsCurrent(cpa[n].value, g)
  }

  predicate LegalImport(w: World, key: string, g: Grant) {
    && g.refreshToken !in SentTokens(w.log)
    && g.handoffId == Digest(g.refreshToken) && g.key == key
    && !g.Blocked() && g.error.None? && g.failures == 0 && g.nextRetryAt.None? && !g.cpaEnabled
    && match w.slot.canonical
       case None => g.generation == 1 && g.refreshCount == 0 && g.automaticRefreshCount == 0 && g.cpaSyncedGeneration.None?
       case Some(c) =>
         && g.generation == c.generation + 1 && g.cpaSyncedGeneration == c.cpaSyncedGeneration
         && g.refreshCount == c.refreshCount && g.automaticRefreshCount == c.automaticRefreshCount
         && SameIdentity(c, g) && g.refreshToken != c.refreshToken && g.handoffId != c.handoffId
  }

  predicate LegalIntent(w: World, c: Grant, g: Grant) {
    !c.Blocked() && w.slot.journal.None? && g == c.(inFlight := true)
  }

  predicate LegalFailure(w: World, c: Grant, g: Grant) {
    && c.inFlight && !c.Terminal() && w.slot.journal.None? && g.error.Some?
    && match Last(w.log)
       case Some(Send(token, at)) =>
         && token == c.refreshToken && g == Failed(c, g.error.value, at)
         && g.error.value in {ServiceUnavailable, RecoveryRequired, ReauthRequired, Unchanged}
       case Some(SaveIntent(_)) => g == Failed(c, Config, 0)
       case _ => false
  }

  predicate LegalJournal(w: World, c: Grant, j: Grant) {
    && c.inFlight && !c.Terminal() && w.slot.journal.None?
    && Last(w.log).Some? && Last(w.log).value.Send? && Last(w.log).value.token == c.refreshToken
    && j.generation == c.generation + 1 && j.refreshCount == c.refreshCount + 1
    && j.automaticRefreshCount in {c.automaticRefreshCount, c.automaticRefreshCount + 1}
    && j.handoffId == c.handoffId && j.key == c.key && j.cpaSyncedGeneration == c.cpaSyncedGeneration
    && !j.inFlight && j.error.None? && j.failures == 0 && j.nextRetryAt.None?
    && (j.refreshToken == c.refreshToken || j.refreshToken !in SentTokens(w.log))
  }

  predicate LegalPromotion(w: World, c: Grant, g: Grant) {
    && w.slot.journal.Some? && SameIdentity(c, w.slot.journal.value)
    && c.generation <= w.slot.journal.value.generation
    && g == w.slot.journal.value.(inFlight := false)
    && c.error != Some(ReauthRequired)
  }

  predicate LegalAmendment(w: World, key: string, c: Grant, g: Grant) {
    && SameCredential(g, c) && g.error == c.error && g.failures == c.failures
    && (g.inFlight == c.inFlight || (c.Terminal() && !g.inFlight))
    && (g.nextRetryAt == c.nextRetryAt || c.Blocked())
    && (|| g.cpaSyncedGeneration == c.cpaSyncedGeneration
        || g.cpaSyncedGeneration.None?
        || (g.cpaSyncedGeneration == Some(c.generation) && FilesCurrent(w.cpa, key, c)))
  }

  predicate LegalSend(w: World, c: Grant, token: string) {
    && token == c.refreshToken && c.inFlight && !c.Terminal() && w.slot.journal.None?
    && Last(w.log) == Some(SaveIntent(c))
  }

  predicate LegalRename(w: World, key: string, c: Grant, from: string, to: string) {
    && Projects(c) && to == CanonicalName(c, key) && from != to && to !in w.cpa
    && IsOwnFile(from, w.cpa, key)
    && forall n | n in w.cpa && IsOwnFile(n, w.cpa, key) :: n == from
  }

  predicate LegalWrite(w: World, key: string, c: Grant, name: string, v: Json) {
    && Projects(c) && name == CanonicalName(c, key)
    && HoldsCurrent(v, c) && IsManaged(v, key) && v.Get(NotraceGeneration) == Some(JNum(c.generation))
    && (name in w.cpa ==> IsOwnFile(name, w.cpa, key))
    && forall n | n in w.cpa && IsOwnFile(n, w.cpa, key) :: n == name
  }

  predicate Legal(w: World, key: string, e: Effect) {
    match e
    case InstallImport(g) => LegalImport(w, key, g)
    case _ =>
      w.slot.canonical.Some? &&
      var c := w.slot.canonical.value;
      match e
      case InstallImport(_) => false
      case SaveIntent(g) => LegalIntent(w, c, g)
      case SaveFailure(g) => LegalFailure(w, c, g)
      case Promote(g) => LegalPromotion(w, c, g)
      case Amend(g) => LegalAmendment(w, key, c, g)
      case Send(token, _) => LegalSend(w, c, token)
      case SaveJournal(j) => LegalJournal(w, c, j)
      case DropJournal => Last(w.log) == Some(Promote(c)) || Last(w.log) == Some(InstallImport(c))
      case CpaRename(from, to) => LegalRename(w, key, c, from, to)
      case CpaWrite(name, v) => LegalWrite(w, key, c, name, v)
  }

  /** A plan all of whose steps are legal where they happen. */
  predicate Lawful(w: World, key: string, plan: Plan)
    decreases plan
  {
    plan.Then? ==> Legal(w, key, plan.effect) && Lawful(Apply(w, plan.effect), key, plan.rest)
  }

  /** The files are those of this account: the store refuses to load any other key's. */
  predicate Keyed(w: World, key: string) {
    && (w.slot.canonical.Some? ==> w.slot.canonical.value.key == key)
    && (w.slot.journal.Some? ==> w.slot.journal.value.key == key)
    && (w.slot.journal.Some? ==> w.slot.canonical.Some?)
  }

  // ----- Every call takes only legal steps -----

  lemma ImportIsLawful(w: World, key: string, body: GrantBody, now: nat, n: nat)
    requires Keyed(w, key) && Honest(w, key, Perform(Import(body, now), n))
    ensures Lawful(w, key, ImportPlan(w.slot, key, body, now))
  {
  }

  lemma PromotionIsLawful(w: World, key: string, g: Grant, answer: Result<Grant, Error>)
    requires w.slot.canonical.Some? && LegalPromotion(w, w.slot.canonical.value, g)
    ensures Lawful(w, key, Then(Promote(g), Then(DropJournal, Return(answer))))
  {
  }

  lemma RecordIsLawful(w: World, key: string, force: bool, now: nat, reply: Reply)
    requires w.slot.canonical.Some? && w.slot.journal.None?
    requires var c := w.slot.canonical.value;
             && c.inFlight && !c.Terminal()
             && Last(w.log) == Some(if reply.NoClient? then SaveIntent(c) else Send(c.refreshToken, now))
             && (reply.Tokens? && reply.refresh.Some? ==>
                   reply.refresh.value == c.refreshToken || reply.refresh.value !in SentTokens(w.log))
    ensures Lawful(w, key, RecordReply(w.slot.canonical.value, force, now, reply))
  {
    var c := w.slot.canonical.value;
    match RefreshOutcome(c, reply) {
      case Err(error) =>
        var g := Failed(c, error, now);
        assert LegalFailure(w, c, g);
        assert Lawful(Apply(w, SaveFailure(g)), key, Return(Err(error)));
      case Ok(rotated) =>
        var next := Succeeded(c, rotated, force);
        assert LegalJournal(w, c, next);
        var w1 := Apply(w, SaveJournal(next));
        if SameIdentity(c, next) {
          PromotionIsLawful(w1, key, next, Ok(next));
        }
    }
  }

  lemma RequestIsLawful(w: World, key: string, force: bool, now: nat, reply: Reply)
    requires w.slot.canonical.Some? && w.slot.journal.None? && !w.slot.canonical.value.Blocked()
    requires var c := w.slot.canonical.value;
             reply.Tokens? && reply.refresh.Some? ==>
               reply.refresh.value == c.refreshToken || reply.refresh.value !in SentTokens(w.log)
    ensures Lawful(w, key, RequestPlan(w.slot.canonical.value, force, now, reply))
  {
    var c := w.slot.canonical.value;
    var flying := c.(inFlight := true);
    var w1 := Apply(w, SaveIntent(flying));
    SentGrows(w.log, SaveIntent(flying));
    if reply.NoClient? {
      RecordIsLawful(w1, key, force, now, reply);
    } else {
      var send := Send(c.refreshToken, now);
      var w2 := Apply(w1, send);
      SentGrows(w1.log, send);
      RecordIsLawful(w2, key, force, now, reply);
      assert LegalSend(w1, flying, c.refreshToken);
      assert Lawful(w1, key, Then(send, RecordReply(flying, force, now, reply)));
    }
  }

  lemma RefreshIsLawful(w: World, key: string, force: bool, now: nat, reply: Reply, n: nat)
    requires Keyed(w, key) && Honest(w, key, Perform(Refresh(force, now, reply), n))
    ensures Lawful(w, key, RefreshPlan(w.slot, force, now, reply))
  {
    var plan := RefreshPlan(w.slot, force, now, reply);
    if plan.Then? {
      var c := w.slot.canonical.value;
      if c.error == Some(ReauthRequired) {
        assert Lawful(Apply(w, plan.effect), key, plan.rest);
      } else if w.slot.journal.Some? {
        PromotionIsLawful(w, key, plan.effect.grant, Ok(plan.effect.grant));
      } else if c.Blocked() {
        assert Lawful(Apply(w, plan.effect), key, plan.rest);
      } else {
        RequestIsLawful(w, key, force, now, reply);
      }
    }
  }

  lemma SettingsAreLawful(w: World, key: string, enabled: bool, hasDirectory: bool, generation: nat)
    ensures Lawful(w, key, SetCpaPlan(w.slot, enabled, hasDirectory))
    ensures Lawful(w, key, AcknowledgePlan(w.slot, generation))
  {
  }

  lemma FinishIsLawful(w: World, key: string, g: Grant, error: Option<Error>)
    requires w.slot.canonical == Some(g) && (error.None? ==> FilesCurrent(w.cpa, key, g))
    ensures Lawful(w, key, FinishSync(g, error))
  {
  }

  /** A write in place of, or beside no, file of the account. */
  lemma WriteIsLawful(w: World, key: string, g: Grant, v: Json, error: Option<Error>)
    requires w.slot.canonical == Some(g)
    requires LegalWrite(w, key, g, CanonicalName(g, key), v)
    ensures Lawful(w, key, Then(CpaWrite(CanonicalName(g, key), v), FinishSync(g, error)))
  {
    var write := CpaWrite(CanonicalName(g, key), v);
    FinishIsLawful(Apply(w, write), key, g, error);
  }

  /** The account's file, if any, already bears the canonical name. */
  lemma InPlaceIsLawful(w: World, key: string, g: Grant, found: Found, fault: Fault)
    requires w.slot.canonical == Some(g) && Projects(g) && g.key == key
    requires forall n | n in w.cpa && IsOwnFile(n, w.cpa, key) ::
               n == CanonicalName(g, key) && found == Some((n, w.cpa[n].value))
    requires CanonicalName(g, key) in w.cpa ==> IsOwnFile(CanonicalName(g, key), w.cpa, key)
    ensures var value := ProjectionOver(g, if found.Some? then Some(found.value.1) else None);
            var work := WriteWork(w.cpa, CanonicalName(g, key), value, [], fault);
            && Lawful(w, key, Prepend(work.steps, FinishSync(g, work.error)))
            && (found.Some? && found.value.1 == value ==> Lawful(w, key, FinishSync(g, None)))
  {
    var existing := if found.Some? then Some(found.value.1) else None;
    var value := ProjectionOver(g, existing);
    ProjectionIsCurrent(g, existing);
    var work := WriteWork(w.cpa, CanonicalName(g, key), value, [], fault);
    if work.steps == [] {
      FinishIsLawful(w, key, g, work.error);
    } else {
      WriteIsLawful(w, key, g, value, work.error);
      assert work.steps[1..] == [];
    }
    if found.Some? && found.value.1 == value {
      FinishIsLawful(w, key, g, None);
    }
  }

  lemma FileWorkIsLawful(w: World, key: string, g: Grant, found: Found, now: nat, fault: Fault)
    requires w.slot.canonical == Some(g) && Projects(g) && g.key == key
    requires forall n | n in w.cpa && IsOwnFile(n, w.cpa, key) :: found == Some((n, w.cpa[n].value))
    requires found.Some? ==> IsOwnFile(found.value.0, w.cpa, key) && w.cpa[found.value.0] == Doc(found.value.1)
    requires found.None? ==> CanonicalName(g, key) !in w.cpa
    ensures var work := FileWorkFor(w.cpa, key, g, found, now, fault);
            Lawful(w, key, Prepend(work.steps, FinishSync(g, work.error)))
  {
    var work := FileWorkFor(w.cpa, key, g, found, now, fault);
    var destination := CanonicalName(g, key);
    CanonicalNameIsScanned(g, key);
    if work.steps == [] && work.error.Some? {
      FinishIsLawful(w, key, g, work.error);
    } else if found.None? || found.value.0 == destination {
      InPlaceIsLawful(w, key, g, found, fault);
    } else {
      var (name, existing) := found.value;
      var move := CpaRename(name, destination);
      var w1 := Apply(w, move);
      assert LegalRename(w, key, g, name, destination);
      assert w1.cpa[destination] == Doc(existing);
      var rest := work.steps[1..];
      assert work.steps == [move] + rest;
      if fault.RenameUnsynced? {
        FinishIsLawful(w1, key, g, work.error);
      } else {
        InPlaceIsLawful(w1, key, g, Some((destination, existing)), fault);
        var value := ProjectionOver(g, Some(existing));
        if existing != value {
          var inPlace := WriteWork(w1.cpa, destination, value, [], fault);
          assert inPlace.steps == rest && inPlace.error == work.error;
        }
      }
      assert Lawful(w1, key, Prepend(rest, FinishSync(g, work.error)));
    }
  }

  lemma SyncIsLawful(w: World, key: string, dir: DirectoryState, now: nat, fault: Fault)
    requires Keyed(w, key) && (dir.Listed? ==> Lists(dir.names, w.cpa))
    ensures Lawful(w, key, SyncPlan(w.slot, w.cpa, key, dir, now, fault))
  {
    var plan := SyncPlan(w.slot, w.cpa, key, dir, now, fault);
    if plan.Then? {
      var g := w.slot.canonical.value;
      if g.Blocked() {
        assert Lawful(Apply(w, plan.effect), key, plan.rest);
      } else {
        if dir.Listed? && Scan(dir.names, w.cpa, key, g).Ok? {
          ScanMeaning(dir.names, w.cpa, key, g);
          ScanLeavesNameFree(dir.names, w.cpa, key, g);
          FileWorkIsLawful(w, key, g, Scan(dir.names, w.cpa, key, g).value, now, fault);
        } else {
          FinishIsLawful(w, key, g, ProjectWork(w.cpa, key, g, dir, now, fault).error);
        }
      }
    }
  }

  lemma CallsAreLawful(w: World, key: string, call: Call, n: nat)
    requires Keyed(w, key) && Honest(w, key, Perform(call, n))
    ensures Lawful(w, key, PlanOf(w, key, call))
  {
    match call {
      case Import(body, now) => ImportIsLawful(w, key, body, now, n);
      case Refresh(force, now, reply) => RefreshIsLawful(w, key, force, now, reply, n);
      case SetCpa(enabled, hasDirectory) => SettingsAreLawful(w, key, enabled, hasDirectory, 0);
      case Acknowledge(generation) => SettingsAreLawful(w, key, false, false, generation);
      case Sync(dir, now, fault) => SyncIsLawful(w, key, dir, now, fault);
    }
  }

  lemma {:induction false} PlanKeepsKey(w: World, key: string, plan: Plan, n: nat)
    requires Keyed(w, key) && Lawful(w, key, plan)
    ensures Keyed(RunPlan(w, plan, n), key)
    decreases plan
  {
    if plan.Then? && n != 0 {
      PlanKeepsKey(Apply(w, plan.effect), key, plan.rest, n - 1);
    }
  }
}
