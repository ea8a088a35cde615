/** What every run of the Broker keeps, whatever the order of calls and wherever each of
    them is cut off. */
module BrokerSafety {
  import opened Basics
  import opened Grants
  import opened CpaDirectory
  import opened BrokerPlans
  import opened BrokerRuns

  // ----- Requests whose outcome is unknown -----

  /** The step that makes the outcome of the request just before it definite. */
  predicate Settles(e: Effect) {
    e.SaveJournal? || (e.SaveFailure? && e.grant.error != Some(RecoveryRequired))
  }

  predicate Settled(log: seq<Effect>, i: nat)
    requires i < |log|
  {
    i + 1 < |log| && Settles(log[i + 1])
  }

  /** A refresh token is sent again only after the earlier request carrying it was
      durably answered: a definite refusal, or a reply safe in the journal. */
  ghost predicate NeverResent(log: seq<Effect>) {
    forall i, j | 0 <= i < j < |log| && log[i].Send? && log[j].Send? && log[i].token == log[j].token ::
      Settled(log, i)
  }

  /** Tokens of requests that were never settled. */
  function Unresolved(log: seq<Effect>): set<string>
    decreases |log|
  {
    if log == [] then {}
    else
      var e, rest := log[|log| - 1], log[..|log| - 1];
      if e.Send? then Unresolved(rest) + {e.token}
      else if Settles(e) && rest != [] && rest[|rest| - 1].Send? then Unresolved(rest[..|rest| - 1])
      else Unresolved(rest)
  }

  lemma {:induction false} UnresolvedWereSent(log: seq<Effect>)
    ensures Unresolved(log) <= SentTokens(log)
    decreases |log|
  {
    if log != [] {
      var e, rest := log[|log| - 1], log[..|log| - 1];
      assert log == rest + [e];
      SentGrows(rest, e);
      UnresolvedWereSent(rest);
      if rest != [] {
        var front := rest[..|rest| - 1];
        assert rest == front + [rest[|rest| - 1]];
        SentGrows(front, rest[|rest| - 1]);
        UnresolvedWereSent(front);
      }
    }
  }

  lemma {:induction false} UnsettledIsUnresolved(log: seq<Effect>, i: nat)
    requires i < |log| && log[i].Send? && !Settled(log, i)
    ensures log[i].token in Unresolved(log)
    decreases |log|
  {
    var e, rest := log[|log| - 1], log[..|log| - 1];
    if i < |rest| {
      if Settles(e) && rest[|rest| - 1].Send? {
        var front := rest[..|rest| - 1];
        assert i != |rest| - 1;
        UnsettledIsUnresolved(front, i);
      } else {
        UnsettledIsUnresolved(rest, i);
      }
    }
  }

  lemma UnresolvedStep(log: seq<Effect>, e: Effect)
    ensures e.Send? ==> Unresolved(log + [e]) == Unresolved(log) + {e.token}
    ensures !e.Send? && !Settles(e) ==> Unresolved(log + [e]) == Unresolved(log)
    ensures Settles(e) && log != [] && log[|log| - 1].Send? ==> Unresolved(log + [e]) == Unresolved(log[..|log| - 1])
    ensures Settles(e) && (log == [] || !log[|log| - 1].Send?) ==> Unresolved(log + [e]) == Unresolved(log)
  {
  }

  lemma NeverResentStep(log: seq<Effect>, e: Effect)
    requires NeverResent(log)
    requires e.Send? ==> e.token !in Unresolved(log)
    ensures NeverResent(log + [e])
  {
    var log' := log + [e];
    forall i, j | 0 <= i < j < |log'| && log'[i].Send? && log'[j].Send? && log'[i].token == log'[j].token
      ensures Settled(log', i)
    {
      if j < |log| {
        assert Settled(log, i);
      } else if !Settled(log, i) {
        UnsettledIsUnresolved(log, i);
      }
    }
  }

  /** A token whose request is unresolved sits only in a blocked grant, and in no journal. */
  ghost predicate TokensSafe(w: World) {
    var u := Unresolved(w.log);
    && NeverResent(w.log)
    && (w.slot.canonical.Some? && w.slot.canonical.value.refreshToken in u ==>
          w.slot.canonical.value.Blocked() && !(w.log != [] && w.log[|w.log| - 1].SaveIntent?))
    && (w.slot.journal.Some? ==> w.slot.journal.value.refreshToken !in u)
    && (w.log != [] && w.log[|w.log| - 1].Send? ==>
          w.log[|w.log| - 1].token !in Unresolved(w.log[..|w.log| - 1]))
  }

  /** A journal never coexists with a recorded terminal outcome. */
  predicate Shaped(w: World) {
    && (w.slot.journal.Some? ==>
          && w.slot.canonical.Some? && !w.slot.canonical.value.Terminal()
          && !w.slot.journal.value.inFlight && w.slot.journal.value.error.None?)
    && (w.slot.canonical.Some? && w.slot.canonical.value.Terminal() ==> !w.slot.canonical.value.inFlight)
  }

  lemma ShapedStep(w: World, key: string, e: Effect)
    requires Shaped(w) && Keyed(w, key) && Legal(w, key, e)
    ensures Shaped(Apply(w, e)) && Keyed(Apply(w, e), key)
  {
  }

  lemma SendKeepsTokensSafe(w: World, key: string, e: Effect)
    requires TokensSafe(w) && Legal(w, key, e) && e.Send?
    ensures TokensSafe(Apply(w, e))
  {
    assert w.slot.canonical.value.refreshToken !in Unresolved(w.log);
    UnresolvedStep(w.log, e);
    NeverResentStep(w.log, e);
    var log' := Apply(w, e).log;
    assert log'[..|log'| - 1] == w.log;
  }

  /** A durable answer takes the token of the request just before it out of the unresolved. */
  lemma AnswerKeepsTokensSafe(w: World, key: string, e: Effect)
    requires TokensSafe(w) && Shaped(w) && Legal(w, key, e) && Settles(e)
    ensures TokensSafe(Apply(w, e))
  {
    UnresolvedStep(w.log, e);
    NeverResentStep(w.log, e);
    if w.log != [] {
      var rest, last := w.log[..|w.log| - 1], w.log[|w.log| - 1];
      assert w.log == rest + [last];
      SentGrows(rest, last);
      UnresolvedWereSent(rest);
    }
    UnresolvedWereSent(w.log);
  }

  lemma OtherKeepsTokensSafe(w: World, key: string, e: Effect)
    requires TokensSafe(w) && Shaped(w) && Legal(w, key, e) && !e.Send? && !Settles(e)
    ensures TokensSafe(Apply(w, e))
  {
    UnresolvedStep(w.log, e);
    NeverResentStep(w.log, e);
    UnresolvedWereSent(w.log);
  }

  lemma TokensStep(w: World, key: string, e: Effect)
    requires TokensSafe(w) && Shaped(w) && Legal(w, key, e)
    ensures TokensSafe(Apply(w, e))
  {
    if e.Send? {
      SendKeepsTokensSafe(w, key, e);
    } else if Settles(e) {
      AnswerKeepsTokensSafe(w, key, e);
    } else {
      OtherKeepsTokensSafe(w, key, e);
    }
  }

  // ----- Generations and counters -----

  /** The generation a step makes visible in the grant file or the consumer's file. */
  function Shown(e: Effect): Option<int> {
    if e.SavesCanonical() then Some(e.grant.generation)
    else if e.CpaWrite? then
      var v := e.value.Get(NotraceGeneration);
      if v.Some? && v.value.JNum? then Some(v.value.n) else None
    else None
  }

  /** Neither the grant file nor the consumer's file ever goes back a generation. */
  ghost predicate Ascending(log: seq<Effect>) {
    forall i, j | 0 <= i < j < |log| && Shown(log[i]).Some? && Shown(log[j]).Some? ::
      Shown(log[i]).value <= Shown(log[j]).value
  }

  predicate CountersFit(g: Grant) {
    g.automaticRefreshCount <= g.refreshCount < g.generation
  }

  /** Nothing shown so far is beyond this generation. */
  ghost predicate ShownUpTo(log: seq<Effect>, generation: int) {
    forall i | 0 <= i < |log| && Shown(log[i]).Some? :: Shown(log[i]).value <= generation
  }

  predicate CanonicalFits(slot: Slot) {
    slot.canonical.Some? ==>
      var c := slot.canonical.value;
      && CountersFit(c)
      && (c.cpaSyncedGeneration.Some? ==> c.cpaSyncedGeneration.value <= c.generation)
  }

  predicate JournalFits(slot: Slot) {
    slot.journal.Some? ==>
      var j := slot.journal.value;
      && CountersFit(j)
      && slot.canonical.Some? && j.generation <= slot.canonical.value.generation + 1
      && (j.cpaSyncedGeneration.Some? ==> j.cpaSyncedGeneration.value < j.generation)
  }

  ghost predicate Counted(w: World) {
    && Ascending(w.log)
    && (if w.slot.canonical.Some? then ShownUpTo(w.log, w.slot.canonical.value.generation)
        else forall e | e in w.log :: Shown(e).None?)
    && CanonicalFits(w.slot) && JournalFits(w.slot)
  }

  lemma AscendingStep(log: seq<Effect>, e: Effect, generation: int)
    requires Ascending(log) && ShownUpTo(log, generation)
    requires Shown(e).Some? ==> generation <= Shown(e).value
    ensures Ascending(log + [e])
    ensures ShownUpTo(log + [e], if Shown(e).Some? then Shown(e).value else generation)
  {
  }

  lemma FirstShown(log: seq<Effect>, e: Effect)
    requires Ascending(log) && forall d | d in log :: Shown(d).None?
    ensures Ascending(log + [e])
    ensures if Shown(e).Some? then ShownUpTo(log + [e], Shown(e).value) else forall d | d in log + [e] :: Shown(d).None?
  {
  }

  /** Marking a request, a failure or a setting leaves the counters alone. */
  lemma NoteKeepsCounters(w: World, key: string, e: Effect)
    requires Legal(w, key, e) && (e.SaveIntent? || e.SaveFailure? || e.Amend?)
    ensures w.slot.canonical.Some? && SameCredential(e.grant, w.slot.canonical.value)
    ensures var c := w.slot.canonical.value;
            e.grant.cpaSyncedGeneration in {c.cpaSyncedGeneration, None, Some(c.generation)}
  {
  }

  lemma SavedCountersFit(w: World, key: string, e: Effect)
    requires CanonicalFits(w.slot) && JournalFits(w.slot) && Legal(w, key, e) && e.SavesCanonical()
    ensures CanonicalFits(Apply(w, e).slot) && JournalFits(Apply(w, e).slot)
    ensures w.slot.canonical.Some? ==> w.slot.canonical.value.generation <= e.grant.generation
  {
    if !e.InstallImport? && !e.Promote? {
      NoteKeepsCounters(w, key, e);
    }
  }

  lemma OtherCountersFit(w: World, key: string, e: Effect)
    requires CanonicalFits(w.slot) && JournalFits(w.slot) && Legal(w, key, e) && !e.SavesCanonical()
    ensures CanonicalFits(Apply(w, e).slot) && JournalFits(Apply(w, e).slot)
    ensures w.slot.canonical.Some? && Apply(w, e).slot.canonical == w.slot.canonical
    ensures Shown(e).Some? ==> Shown(e).value == w.slot.canonical.value.generation
  {
  }

  lemma CountedStep(w: World, key: string, e: Effect)
    requires Counted(w) && Legal(w, key, e)
    ensures Counted(Apply(w, e))
  {
    if e.SavesCanonical() {
      SavedCountersFit(w, key, e);
    } else {
      OtherCountersFit(w, key, e);
    }
    if w.slot.canonical.Some? {
      AscendingStep(w.log, e, w.slot.canonical.value.generation);
    } else {
      FirstShown(w.log, e);
    }
  }

  // ----- The consumer's file -----

  predicate FileNotAhead(v: Json, g: Grant) {
    var n := v.Get(NotraceGeneration);
    n.Some? && n.value.JNum? && n.value.n <= g.generation
  }

  /** At most one file is the account's; it is never ahead of the grant; and once its
      generation is recorded as synced it holds the grant's current credential. */
  ghost predicate FilesSafe(w: World, key: string) {
    && AtMostOneOwnFile(w.cpa, key)
    && (forall n | n in w.cpa && IsOwnFile(n, w.cpa, key) ::
          w.slot.canonical.Some? && FileNotAhead(w.cpa[n].value, w.slot.canonical.value))
    && (w.slot.canonical.Some? && w.slot.canonical.value.cpaSyncedGeneration == Some(w.slot.canonical.value.generation) ==>
          FilesCurrent(w.cpa, key, w.slot.canonical.value))
  }

  lemma SameCredentialSameProjection(a: Grant, b: Grant)
    requires SameCredential(a, b)
    ensures Projection(a) == Projection(b)
  {
  }

  lemma RenameMovesTheOwnFile(cpa: Directory, key: string, from: string, to: string)
    requires IsOwnFile(from, cpa, key) && to !in cpa && HasJsonExtension(to)
    requires forall n | n in cpa && IsOwnFile(n, cpa, key) :: n == from
    ensures var cpa' := ApplyToDirectory(cpa, CpaRename(from, to));
            forall n :: IsOwnFile(n, cpa', key) <==> n == to
    ensures ApplyToDirectory(cpa, CpaRename(from, to))[to] == cpa[from]
  {
  }

  lemma FilesStep(w: World, key: string, e: Effect)
    requires FilesSafe(w, key) && Counted(w) && Keyed(w, key) && Legal(w, key, e)
    ensures FilesSafe(Apply(w, e), key)
  {
    var w' := Apply(w, e);
    if e.CpaRename? {
      CanonicalNameIsScanned(w.slot.canonical.value, key);
      RenameMovesTheOwnFile(w.cpa, key, e.from, e.to);
    } else if e.CpaWrite? {
      CanonicalNameIsScanned(w.slot.canonical.value, key);
      assert forall n :: IsOwnFile(n, w'.cpa, key) ==> n == e.name;
    } else if w.slot.canonical.Some? {
      assert w'.cpa == w.cpa;
      RecordKeepsFiles(w, key, e);
    }
  }

  /** A save counts its own generation as synced only for the credential that was there, and
      only if it did so before or the files are current. */
  lemma SaveCountsAsSyncedOnlyIf(w: World, key: string, e: Effect)
    requires CanonicalFits(w.slot) && JournalFits(w.slot) && Legal(w, key, e) && e.SavesCanonical()
    requires w.slot.canonical.Some? && e.grant.cpaSyncedGeneration == Some(e.grant.generation)
    ensures var c := w.slot.canonical.value;
            && SameCredential(e.grant, c)
            && (c.cpaSyncedGeneration == Some(c.generation) || FilesCurrent(w.cpa, key, c))
  {
  }

  /** A step that touches no consumer file. */
  lemma RecordKeepsFiles(w: World, key: string, e: Effect)
    requires FilesSafe(w, key) && Counted(w) && Legal(w, key, e) && !e.CpaRename? && !e.CpaWrite?
    requires w.slot.canonical.Some?
    ensures var c, c' := w.slot.canonical.value, Apply(w, e).slot.canonical.value;
            && c.generation <= c'.generation
            && (c'.cpaSyncedGeneration == Some(c'.generation) ==> FilesCurrent(w.cpa, key, c'))
  {
    if e.SavesCanonical() {
      SavedCountersFit(w, key, e);
      if e.grant.cpaSyncedGeneration == Some(e.grant.generation) {
        SaveCountsAsSyncedOnlyIf(w, key, e);
        SameCredentialSameProjection(e.grant, w.slot.canonical.value);
      }
    } else {
      OtherCountersFit(w, key, e);
    }
  }

  // ----- Rotated credentials -----

  /** The last step that brought a new credential into the files. */
  function Newest(log: seq<Effect>): Option<Effect>
    decreases |log|
  {
    if log == [] then None
    else
      var e := log[|log| - 1];
      if e.SaveJournal? || e.InstallImport? then Some(e) else Newest(log[..|log| - 1])
  }

  /** A rotated credential that reached the journal is in the journal or in the grant file
      until another credential is born. */
  ghost predicate NothingLost(w: World) {
    var newest := Newest(w.log);
    newest.Some? && newest.value.SaveJournal? ==>
      var born := newest.value.grant;
      && (w.slot.journal.Some? ==> w.slot.journal.value == born)
      && (w.slot.journal.None? || (w.log != [] && w.log[|w.log| - 1].Promote?) ==>
            w.slot.canonical.Some? && SameCredential(w.slot.canonical.value, born))
  }

  lemma NewestStep(log: seq<Effect>, e: Effect)
    ensures Newest(log + [e]) == if e.SaveJournal? || e.InstallImport? then Some(e) else Newest(log)
  {
  }

  lemma NothingLostStep(w: World, key: string, e: Effect)
    requires NothingLost(w) && Legal(w, key, e)
    ensures NothingLost(Apply(w, e))
  {
    NewestStep(w.log, e);
    if e.SaveIntent? || e.SaveFailure? || e.Amend? {
      NoteKeepsCounters(w, key, e);
    }
  }

  // ----- What does not depend on the directory -----

  ghost predicate Core(w: World, key: string) {
    Keyed(w, key) && Shaped(w) && TokensSafe(w) && Counted(w) && NothingLost(w)
  }

  /** A store that holds nothing of this account. */
  predicate Empty(w: World) {
    w.slot == Slot(None, None) && w.log == []
  }

  lemma EmptyIsSafe(w: World, key: string)
    requires Empty(w)
    ensures Core(w, key)
  {
  }

  lemma EffectKeepsCore(w: World, key: string, e: Effect)
    requires Core(w, key) && Legal(w, key, e)
    ensures Core(Apply(w, e), key)
  {
    ShapedStep(w, key, e);
    TokensStep(w, key, e);
    CountedStep(w, key, e);
    NothingLostStep(w, key, e);
  }

  lemma {:induction false} PlanKeepsCore(w: World, key: string, plan: Plan, n: nat)
    requires Core(w, key) && Lawful(w, key, plan)
    ensures Core(RunPlan(w, plan, n), key)
    decreases plan
  {
    if plan.Then? && n != 0 {
      EffectKeepsCore(w, key, plan.effect);
      PlanKeepsCore(Apply(w, plan.effect), key, plan.rest, n - 1);
    }
  }

  lemma StepKeepsCore(w: World, key: string, ev: Event)
    requires Core(w, key) && HonestCall(w, key, ev)
    ensures Core(Step(w, key, ev), key)
  {
    if ev.Perform? {
      CallsAreLawful(w, key, ev.call, ev.steps);
      PlanKeepsCore(w, key, PlanOf(w, key, ev.call), ev.steps);
    }
  }

  /** Every run keeps what concerns tokens, generations and credentials, whatever is done to
      the consumer directory in between. */
  lemma {:induction false} RunsKeepCore(w: World, key: string, evs: seq<Event>)
    requires Core(w, key) && HonestCallRun(w, key, evs)
    ensures Core(Run(w, key, evs), key)
    decreases |evs|
  {
    if evs != [] {
      StepKeepsCore(w, key, evs[0]);
      RunsKeepCore(Step(w, key, evs[0]), key, evs[1..]);
    }
  }

  // ----- All of it, over runs -----

  ghost predicate Inv(w: World, key: string) {
    Core(w, key) && FilesSafe(w, key)
  }

  /** Nothing of this account either in a directory file. */
  predicate Fresh(w: World, key: string) {
    Empty(w) && forall n | n in w.cpa :: !IsOwnFile(n, w.cpa, key)
  }

  lemma FreshIsSafe(w: World, key: string)
    requires Fresh(w, key)
    ensures Inv(w, key)
  {
    EmptyIsSafe(w, key);
  }

  lemma EffectKeepsInv(w: World, key: string, e: Effect)
    requires Inv(w, key) && Legal(w, key, e)
    ensures Inv(Apply(w, e), key)
  {
    EffectKeepsCore(w, key, e);
    FilesStep(w, key, e);
  }

  lemma {:induction false} PlanKeepsInv(w: World, key: string, plan: Plan, n: nat)
    requires Inv(w, key) && Lawful(w, key, plan)
    ensures Inv(RunPlan(w, plan, n), key)
    decreases plan
  {
    if plan.Then? && n != 0 {
      EffectKeepsInv(w, key, plan.effect);
      PlanKeepsInv(Apply(w, plan.effect), key, plan.rest, n - 1);
    }
  }

  lemma OutsideKeepsInv(w: World, key: string, cpa: Directory)
    requires Inv(w, key) && OutsideAllowed(w.cpa, cpa, key)
    ensures Inv(w.(cpa := cpa), key)
  {
    forall n | n in cpa && IsOwnFile(n, cpa, key)
      ensures w.slot.canonical.Some? && FileNotAhead(cpa[n].value, w.slot.canonical.value)
      ensures HoldsCurrent(w.cpa[n].value, w.slot.canonical.value) ==> HoldsCurrent(cpa[n].value, w.slot.canonical.value)
    {
      var a, b := w.cpa[n].value, cpa[n].value;
      assert NotraceGeneration in (a.fields - {Disabled}) <==> NotraceGeneration in a.fields;
      assert a.Get(NotraceGeneration) == b.Get(NotraceGeneration) by {
        if NotraceGeneration in a.fields {
          assert (a.fields - {Disabled})[NotraceGeneration] == (b.fields - {Disabled})[NotraceGeneration];
        }
        assert NotraceGeneration in (b.fields - {Disabled}) <==> NotraceGeneration in b.fields;
      }
    }
  }

  lemma StepKeepsInv(w: World, key: string, ev: Event)
    requires Inv(w, key) && Honest(w, key, ev)
    ensures Inv(Step(w, key, ev), key)
  {
    match ev {
      case Perform(call, n) =>
        CallsAreLawful(w, key, call, n);
        PlanKeepsInv(w, key, PlanOf(w, key, call), n);
      case Outside(cpa) => OutsideKeepsInv(w, key, cpa);
    }
  }

  /** Every run keeps all of the invariants above. */
  lemma {:induction false} RunsKeepInv(w: World, key: string, evs: seq<Event>)
    requires Inv(w, key) && HonestRun(w, key, evs)
    ensures Inv(Run(w, key, evs), key)
    decreases |evs|
  {
    if evs != [] {
      StepKeepsInv(w, key, evs[0]);
      RunsKeepInv(Step(w, key, evs[0]), key, evs[1..]);
    }
  }
}
