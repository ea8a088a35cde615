/** What a token request comes to, told from the provider's reply alone: the record a
    completed request leaves, and over every run, after which replies a token may be sent
    again. */
module BrokerReplies {
  import opened Basics
  import opened Grants
  import opened BrokerPlans
  import opened BrokerRuns
  import opened BrokerSafety
  import opened BrokerTheorems

  // ----- What a completed request leaves -----

  /** Nothing is left to recover, nothing blocks the account, and it is forced or both the due
      time and any announced retry time have come. */
  predicate MayRequest(w: World, force: bool, now: nat) {
    w.slot.canonical.Some? && w.slot.journal.None? &&
    var c := w.slot.canonical.value;
    && !c.inFlight && c.error != Some(ReauthRequired) && c.error != Some(RecoveryRequired)
    && (force || (c.DueAt() <= now && (c.nextRetryAt.Some? ==> c.nextRetryAt.value <= now)))
  }

  /** `g` is `c` with one more failure counted, and nothing else of it changed but the flags. */
  predicate Counts(c: Grant, g: Grant, error: Error) {
    && SameCredential(c, g) && !g.inFlight && g.error == Some(error)
    && g.failures == (if c.failures < 0xffff_ffff then c.failures + 1 else c.failures)
    && g.cpaSyncedGeneration == c.cpaSyncedGeneration && g.cpaSyncSuspended == c.cpaSyncSuspended
    && g.cockpitSyncedGeneration == c.cockpitSyncedGeneration
  }

  /** The wait announced after the k-th failure in a row. */
  predicate WaitsAfter(g: Grant, now: nat) {
    g.nextRetryAt == Some(if g.failures == 1 then now + 900 else if g.failures == 2 then now + 3600 else now + 21600)
  }

  predicate KeepsConsumer(c: Grant, g: Grant) {
    g.cpaEnabled == c.cpaEnabled && g.cpaSyncError == c.cpaSyncError
  }

  /** The record after a refusal or an unknown outcome. */
  predicate RecordsFailure(c: Grant, g: Grant, now: nat, reply: Reply) {
    && (Indefinite(c, reply) ==> Counts(c, g, RecoveryRequired) && g.nextRetryAt.None? && KeepsConsumer(c, g))
    && (RefusedForGood(reply) ==>
          Counts(c, g, ReauthRequired) && g.nextRetryAt.None? && !g.cpaEnabled && g.cpaSyncError == Some(ReauthRequired))
    && (reply.NoConnection? || (reply.Refused? && !RefusedForGood(reply)) ==>
          Counts(c, g, ServiceUnavailable) && WaitsAfter(g, now) && KeepsConsumer(c, g))
    && (reply.NoClient? ==> Counts(c, g, Config) && g.nextRetryAt.None? && KeepsConsumer(c, g))
    && (Usable(c, reply) && SameTokens(c, reply) ==>
          Counts(c, g, Unchanged) && WaitsAfter(g, now) && KeepsConsumer(c, g))
  }

  /** The record of the new credential: as the reply says, with the failures forgotten and the
      refresh counted as automatic unless it was forced. */
  predicate RecordsRotation(c: Grant, g: Grant, force: bool, reply: Reply) {
    && !g.inFlight && g.error.None? && g.failures == 0 && g.nextRetryAt.None?
    && g.automaticRefreshCount == (if force then c.automaticRefreshCount else c.automaticRefreshCount + 1)
    && Rotates(c, g.(inFlight := c.inFlight, error := c.error, failures := c.failures, nextRetryAt := c.nextRetryAt,
                     automaticRefreshCount := c.automaticRefreshCount), reply)
  }

  /** A reply that brings a new credential. */
  predicate BringsCredential(c: Grant, reply: Reply) {
    Usable(c, reply) && !SameTokens(c, reply)
  }

  lemma OneStep(w: World, a: Effect, rest: Plan, n: nat)
    requires 1 <= n
    ensures RunPlan(w, Then(a, rest), n) == RunPlan(Apply(w, a), rest, n - 1)
    ensures Answer(Then(a, rest), n) == Answer(rest, n - 1)
  {
  }

  lemma TwoSteps(w: World, a: Effect, b: Effect, rest: Plan, n: nat)
    requires 2 <= n
    ensures RunPlan(w, Then(a, Then(b, rest)), n) == RunPlan(Apply(Apply(w, a), b), rest, n - 2)
    ensures Answer(Then(a, Then(b, rest)), n) == Answer(rest, n - 2)
  {
    OneStep(w, a, Then(b, rest), n);
    OneStep(Apply(w, a), b, rest, n - 1);
  }

  lemma Finished(w: World, r: Result<Grant, Error>, n: nat)
    ensures RunPlan(w, Return(r), n) == w && Answer(Return(r), n) == r
  {
  }

  /** The request is the one the account's grant describes, reply or no reply. */
  lemma ReplyIsReadAlike(c: Grant, reply: Reply)
    ensures var flying := c.(inFlight := true);
            && Usable(flying, reply) == Usable(c, reply) && SameTokens(flying, reply) == SameTokens(c, reply)
            && Indefinite(flying, reply) == Indefinite(c, reply)
  {
  }

  lemma RefusalIsRecorded(c: Grant, now: nat, reply: Reply)
    requires !BringsCredential(c, reply)
    ensures var flying := c.(inFlight := true); var outcome := RefreshOutcome(flying, reply);
            outcome.Err? && RecordsFailure(c, Failed(flying, outcome.error, now), now, reply)
    ensures Failed(c.(inFlight := true), RefreshOutcome(c.(inFlight := true), reply).error, now).error
              == Some(RefreshOutcome(c.(inFlight := true), reply).error)
  {
    ReplyIsReadAlike(c, reply);
  }

  /** The plan of a request that fails, as far as its answer goes. */
  lemma FailedRequest(w: World, c: Grant, flying: Grant, force: bool, now: nat, reply: Reply, error: Error, g: Grant, n: nat)
    requires 5 <= n && flying == c.(inFlight := true)
    requires RefreshOutcome(flying, reply) == Err(error) && g == Failed(flying, error, now)
    ensures var w' := RunPlan(w, RequestPlan(c, force, now, reply), n);
            w'.slot == Slot(Some(g), w.slot.journal) && w'.cpa == w.cpa
    ensures Answer(RequestPlan(c, force, now, reply), n) == Err(error)
  {
    var intent, failure := SaveIntent(flying), SaveFailure(g);
    var plan := RequestPlan(c, force, now, reply);
    if reply.NoClient? {
      assert plan == Then(intent, Then(failure, Return(Err(error))));
      TwoSteps(w, intent, failure, Return(Err(error)), n);
      Finished(Apply(Apply(w, intent), failure), Err(error), n - 2);
    } else {
      var send := Send(c.refreshToken, now);
      assert plan == Then(intent, Then(send, Then(failure, Return(Err(error)))));
      TwoSteps(w, intent, send, Then(failure, Return(Err(error))), n);
      OneStep(Apply(Apply(w, intent), send), failure, Return(Err(error)), n - 2);
      Finished(Apply(Apply(Apply(w, intent), send), failure), Err(error), n - 3);
    }
  }

  lemma RequestIsPlanned(w: World, key: string, force: bool, now: nat, reply: Reply)
    requires MayRequest(w, force, now)
    ensures PlanOf(w, key, Refresh(force, now, reply)) == RequestPlan(w.slot.canonical.value, force, now, reply)
  {
  }

  /** A completed request that brings no new credential records why, and what it may do next:
      after an unknown outcome or a final refusal nothing, and otherwise a retry at the end of
      the wait. */
  lemma CompletedRequestRecordsFailure(w: World, key: string, force: bool, now: nat, reply: Reply, n: nat)
    requires MayRequest(w, force, now) && 5 <= n && !BringsCredential(w.slot.canonical.value, reply)
    ensures var w' := Step(w, key, Perform(Refresh(force, now, reply), n));
            && w'.slot.journal.None? && w'.cpa == w.cpa
            && w'.slot.canonical.Some? && RecordsFailure(w.slot.canonical.value, w'.slot.canonical.value, now, reply)
            && Answer(PlanOf(w, key, Refresh(force, now, reply)), n) == Err(w'.slot.canonical.value.error.value)
  {
    var c := w.slot.canonical.value;
    var flying := c.(inFlight := true);
    RefusalIsRecorded(c, now, reply);
    var error := RefreshOutcome(flying, reply).error;
    RequestIsPlanned(w, key, force, now, reply);
    FailedRequest(w, c, flying, force, now, reply, error, Failed(flying, error, now), n);
  }

  lemma RotationIsRecorded(c: Grant, force: bool, reply: Reply)
    requires BringsCredential(c, reply)
    ensures var flying := c.(inFlight := true); var outcome := RefreshOutcome(flying, reply);
            outcome.Ok? && RecordsRotation(c, Succeeded(flying, outcome.value, force), force, reply)
  {
    ReplyIsReadAlike(c, reply);
  }

  /** The plan of a request that brings a new credential, which stays in the journal if it is of
      another account. */
  lemma RotatingRequest(w: World, c: Grant, flying: Grant, force: bool, now: nat, reply: Reply, next: Grant, n: nat)
    requires 5 <= n && w.slot.journal.None? && flying == c.(inFlight := true) && !reply.NoClient?
    requires var outcome := RefreshOutcome(flying, reply); outcome.Ok? && next == Succeeded(flying, outcome.value, force)
    ensures var w' := RunPlan(w, RequestPlan(c, force, now, reply), n);
            w'.slot == (if SameIdentity(flying, next) then Slot(Some(next), None) else Slot(Some(flying), Some(next)))
            && w'.cpa == w.cpa
    ensures Answer(RequestPlan(c, force, now, reply), n) ==
              if SameIdentity(flying, next) then Ok(next) else Err(IdentityMismatch)
  {
    var intent, send, journal := SaveIntent(flying), Send(c.refreshToken, now), SaveJournal(next);
    var end := if SameIdentity(flying, next) then Then(Promote(next), Then(DropJournal, Return(Ok(next))))
               else Return(Err(IdentityMismatch));
    assert RequestPlan(c, force, now, reply) == Then(intent, Then(send, Then(journal, end)));
    var w2 := Apply(Apply(w, intent), send);
    TwoSteps(w, intent, send, Then(journal, end), n);
    OneStep(w2, journal, end, n - 2);
    if SameIdentity(flying, next) {
      TwoSteps(Apply(w2, journal), Promote(next), DropJournal, Return(Ok(next)), n - 3);
      Finished(Apply(Apply(Apply(w2, journal), Promote(next)), DropJournal), Ok(next), n - 5);
    } else {
      Finished(Apply(w2, journal), Err(IdentityMismatch), n - 3);
    }
  }

  /** A completed request that brings a new credential leaves it as the grant, with no journal,
      if it is of the same account; of another account it stays in the journal, the grant
      stays in flight, and the call reports it. */
  lemma CompletedRequestRecordsRotation(w: World, key: string, force: bool, now: nat, reply: Reply, n: nat)
    requires MayRequest(w, force, now) && 5 <= n && BringsCredential(w.slot.canonical.value, reply)
    ensures var c := w.slot.canonical.value; var w' := Step(w, key, Perform(Refresh(force, now, reply), n));
            var answer := Answer(PlanOf(w, key, Refresh(force, now, reply)), n);
            && w'.cpa == w.cpa && w'.slot.canonical.Some?
            && var kept := if w'.slot.journal.Some? then w'.slot.journal.value else w'.slot.canonical.value;
               && RecordsRotation(c, kept, force, reply)
               && (w'.slot.journal.None? <==> SameIdentity(c, kept))
               && (w'.slot.journal.Some? ==> w'.slot.canonical == Some(c.(inFlight := true)))
               && answer == if w'.slot.journal.None? then Ok(kept) else Err(IdentityMismatch)
  {
    var c := w.slot.canonical.value;
    var flying := c.(inFlight := true);
    RotationIsRecorded(c, force, reply);
    var next := Succeeded(flying, RefreshOutcome(flying, reply).value, force);
    RequestIsPlanned(w, key, force, now, reply);
    RotatingRequest(w, c, flying, force, now, reply, next, n);
  }

  // ----- What a refresh does when it makes no request -----

  /** The consumer switched off because the grant cannot be refreshed any more. */
  function SwitchedOff(c: Grant, error: Error): Grant {
    c.(cpaEnabled := false, nextRetryAt := None, cpaSyncError := Some(error))
  }

  /** A journal of this account that the grant has not overtaken is recovered; a blocked account
      has its consumer switched off; and otherwise nothing happens. */
  lemma RefreshWithoutRequest(w: World, key: string, force: bool, now: nat, reply: Reply, n: nat)
    requires w.slot.canonical.Some? && !MayRequest(w, force, now) && 2 <= n
    ensures var c := w.slot.canonical.value;
            var w' := Step(w, key, Perform(Refresh(force, now, reply), n));
            var answer := Answer(PlanOf(w, key, Refresh(force, now, reply)), n);
            && w'.cpa == w.cpa
            && if c.error == Some(ReauthRequired) then
                 && answer == Err(ReauthRequired)
                 && if c.cpaEnabled || c.nextRetryAt.Some? || c.inFlight
                    then w'.slot == w.slot.(canonical := Some(SwitchedOff(c, ReauthRequired).(inFlight := false)))
                    else w' == w
               else if w.slot.journal.Some? then
                 var j := w.slot.journal.value;
                 if SameIdentity(c, j) && c.generation <= j.generation
                 then w'.slot == Slot(Some(j.(inFlight := false)), None) && answer == Ok(j.(inFlight := false))
                 else w' == w && answer == Err(if SameIdentity(c, j) then RecoveryRequired else IdentityMismatch)
               else if c.inFlight || c.error == Some(RecoveryRequired) then
                 var error := if c.error.Some? then c.error.value else RecoveryRequired;
                 && answer == Err(error)
                 && if c.cpaEnabled || c.nextRetryAt.Some?
                    then w'.slot == w.slot.(canonical := Some(SwitchedOff(c, error)))
                    else w' == w
               else w' == w && answer == Ok(c)
  {
    var plan := PlanOf(w, key, Refresh(force, now, reply));
    if plan.Then? && plan.rest.Then? {
      TwoSteps(w, plan.effect, plan.rest.effect, plan.rest.rest, n);
    } else if plan.Then? {
      OneStep(w, plan.effect, plan.rest, n);
    }
  }

  // ----- When a token may be sent again -----

  /** The event sends this token to the provider. */
  ghost predicate Transmits(w: World, key: string, ev: Event, token: string) {
    exists i | |w.log| <= i < |Step(w, key, ev).log| ::
      Step(w, key, ev).log[i].Send? && Step(w, key, ev).log[i].token == token
  }

  /** The reply says that the token is still good: the connection was never made, a refusal
      that is not final, or a success that leaves it in place. */
  predicate LeavesTokenGood(c: Grant, reply: Reply) {
    || reply.NoConnection?
    || (reply.Refused? && !RefusedForGood(reply))
    || (Usable(c, reply) && (reply.refresh.None? || reply.refresh.value == c.refreshToken))
  }

  /** The token has been sent, and no file holds it in a state from which it could be sent. */
  predicate Retired(w: World, token: string) {
    && token in SentTokens(w.log)
    && (w.slot.canonical.Some? && w.slot.canonical.value.refreshToken == token ==> w.slot.canonical.value.Blocked())
    && (w.slot.journal.Some? ==> w.slot.journal.value.refreshToken != token)
  }

  /** Once no file holds it, only a step that brings it back could. */
  lemma GoneStaysGone(w: World, key: string, e: Effect, token: string)
    requires Retired(w, token) && Legal(w, key, e)
    requires w.slot.canonical.Some? ==> w.slot.canonical.value.refreshToken != token
    ensures var w' := Apply(w, e);
            && Retired(w', token) && !(e.Send? && e.token == token)
            && (w'.slot.canonical.Some? ==> w'.slot.canonical.value.refreshToken != token)
  {
    SentGrows(w.log, e);
    if e.SaveIntent? || e.SaveFailure? || e.Amend? {
      NoteKeepsCounters(w, key, e);
    }
  }

  predicate AddsNoSend(before: seq<Effect>, after: seq<Effect>, token: string) {
    before <= after && forall i | |before| <= i < |after| :: !(after[i].Send? && after[i].token == token)
  }

  lemma {:induction false} PlanKeepsGone(w: World, key: string, plan: Plan, n: nat, token: string)
    requires Retired(w, token) && Lawful(w, key, plan)
    requires w.slot.canonical.Some? ==> w.slot.canonical.value.refreshToken != token
    ensures Retired(RunPlan(w, plan, n), token) && AddsNoSend(w.log, RunPlan(w, plan, n).log, token)
    decreases plan
  {
    if plan.Then? && n != 0 {
      GoneStaysGone(w, key, plan.effect, token);
      PlanKeepsGone(Apply(w, plan.effect), key, plan.rest, n - 1, token);
    }
  }

  /** A blocked account's call leaves it alone but for bookkeeping, recovers its journal, or
      installs an imported credential. */
  lemma BlockedPlan(w: World, key: string, call: Call)
    requires w.slot.canonical.Some? && w.slot.canonical.value.Blocked()
    ensures var plan := PlanOf(w, key, call); var c := w.slot.canonical.value;
            plan.Then? ==>
              || (&& plan.effect.Amend? && plan.rest.Return?
                  && plan.effect.grant.refreshToken == c.refreshToken && plan.effect.grant.Blocked())
              || (&& plan.effect.Promote? && w.slot.journal.Some?
                  && plan.effect.grant.refreshToken == w.slot.journal.value.refreshToken)
              || plan.effect.InstallImport?
  {
  }

  lemma RetiredStep(w: World, key: string, ev: Event, token: string)
    requires Retired(w, token) && Keyed(w, key) && HonestCall(w, key, ev)
    ensures Retired(Step(w, key, ev), token) && AddsNoSend(w.log, Step(w, key, ev).log, token)
  {
    if ev.Perform? && ev.steps != 0 && PlanOf(w, key, ev.call).Then? {
      var plan := PlanOf(w, key, ev.call);
      CallsAreLawful(w, key, ev.call, ev.steps);
      if w.slot.canonical.Some? && w.slot.canonical.value.refreshToken == token {
        BlockedPlan(w, key, ev.call);
        var w1 := Apply(w, plan.effect);
        SentGrows(w.log, plan.effect);
        OneStep(w, plan.effect, plan.rest, ev.steps);
        if plan.rest.Then? {
          PlanKeepsGone(w1, key, plan.rest, ev.steps - 1, token);
        }
      } else {
        PlanKeepsGone(w, key, plan, ev.steps, token);
      }
    }
  }

  lemma {:induction false} RetiredForEver(w: World, key: string, evs: seq<Event>, token: string)
    requires Retired(w, token) && Core(w, key) && HonestCallRun(w, key, evs)
    ensures Retired(Run(w, key, evs), token)
    decreases |evs|
  {
    if evs != [] {
      RetiredStep(w, key, evs[0], token);
      StepKeepsCore(w, key, evs[0]);
      RetiredForEver(Step(w, key, evs[0]), key, evs[1..], token);
    }
  }

  lemma {:induction false} SilentPlan(w: World, plan: Plan, n: nat)
    requires !Sends(plan)
    ensures w.log <= RunPlan(w, plan, n).log
    ensures forall i | |w.log| <= i < |RunPlan(w, plan, n).log| :: !RunPlan(w, plan, n).log[i].Send?
    decreases plan
  {
    if plan.Then? && n != 0 {
      SilentPlan(Apply(w, plan.effect), plan.rest, n - 1);
    }
  }

  /** What is sent is the grant's own token, in a refresh that may make a request and lives to
      make it. */
  lemma TransmitsExactlyWhen(w: World, key: string, ev: Event, token: string)
    ensures Transmits(w, key, ev, token) <==>
              && ev.Perform? && ev.call.Refresh? && !ev.call.reply.NoClient? && 2 <= ev.steps
              && MayRequest(w, ev.call.force, ev.call.now) && w.slot.canonical.value.refreshToken == token
  {
    if ev.Perform? {
      var plan := PlanOf(w, key, ev.call);
      RequestIsMadeExactlyWhen(w, key, ev.call);
      if !Sends(plan) {
        SilentPlan(w, plan, ev.steps);
      } else {
        var c := w.slot.canonical.value;
        var flying := c.(inFlight := true);
        var intent, send := SaveIntent(flying), Send(c.refreshToken, ev.call.now);
        var record := RecordReply(flying, ev.call.force, ev.call.now, ev.call.reply);
        assert plan == Then(intent, Then(send, record));
        RecordSendsNothing(flying, ev.call.force, ev.call.now, ev.call.reply);
        if 2 <= ev.steps {
          TwoSteps(w, intent, send, record, ev.steps);
          var w2 := Apply(Apply(w, intent), send);
          SilentPlan(w2, record, ev.steps - 2);
          var log := RunPlan(w2, record, ev.steps - 2).log;
          assert w2.log[|w.log|] == intent && w2.log[|w.log| + 1] == send;
          assert log[|w.log|] == intent && log[|w.log| + 1] == send;
          assert forall i | |w.log| <= i < |log| && log[i].Send? :: i == |w.log| + 1;
          assert Step(w, key, ev).log == log;
        } else if ev.steps == 1 {
          OneStep(w, intent, Then(send, record), 1);
        }
      }
    }
  }

  /** After a reply that does not leave the token good, or a crash before the reply is on record,
      no file holds the token in a state from which it could be sent. */
  lemma UnansweredIsRetired(w: World, key: string, ev: Event, token: string)
    requires Transmits(w, key, ev, token)
    requires ev.Perform? && ev.call.Refresh?
    requires ev.steps < 3 || !LeavesTokenGood(w.slot.canonical.value, ev.call.reply)
    ensures Retired(Step(w, key, ev), token)
  {
    TransmitsExactlyWhen(w, key, ev, token);
    var c, reply := w.slot.canonical.value, ev.call.reply;
    var flying := c.(inFlight := true);
    var intent, send := SaveIntent(flying), Send(c.refreshToken, ev.call.now);
    var record := RecordReply(flying, ev.call.force, ev.call.now, reply);
    assert PlanOf(w, key, ev.call) == Then(intent, Then(send, record));
    TwoSteps(w, intent, send, record, ev.steps);
    SentGrows(w.log, intent);
    SentGrows(w.log + [intent], send);
    var w2 := Apply(Apply(w, intent), send);
    ReplyIsReadAlike(c, reply);
    RecordRetires(w2, flying, ev.call.force, ev.call.now, reply, ev.steps - 2);
  }

  lemma RecordRetires(w: World, flying: Grant, force: bool, now: nat, reply: Reply, n: nat)
    requires w.slot == Slot(Some(flying), None) && flying.inFlight && flying.refreshToken in SentTokens(w.log)
    requires n == 0 || !LeavesTokenGood(flying, reply)
    requires !reply.NoClient?
    ensures Retired(RunPlan(w, RecordReply(flying, force, now, reply), n), flying.refreshToken)
  {
    if n != 0 {
      var plan, token := RecordReply(flying, force, now, reply), flying.refreshToken;
      var w1 := Apply(w, plan.effect);
      SentGrows(w.log, plan.effect);
      OneStep(w, plan.effect, plan.rest, n);
      if plan.rest.Then? && 1 < n {
        var w2 := Apply(w1, plan.rest.effect);
        SentGrows(w1.log, plan.rest.effect);
        OneStep(w1, plan.rest.effect, plan.rest.rest, n - 1);
        if 2 < n {
          SentGrows(w2.log, DropJournal);
          OneStep(w2, DropJournal, plan.rest.rest.rest, n - 2);
        }
      }
    }
  }

  /** Over every run: a token that was sent once is sent again only if the reply to every earlier
      request carrying it said that it is still good, and was put on record. After a dropped
      request, a success that cannot be read, a final refusal, a rotation, or a crash before
      the record, it never is. */
  lemma SentAgainOnlyAfterAGoodReply(w: World, key: string, before: seq<Event>, first: Event, between: seq<Event>,
                                     second: Event, token: string)
    requires Empty(w) && HonestCallRun(w, key, before)
    requires var w0 := Run(w, key, before);
             && Transmits(w0, key, first, token) && HonestCall(w0, key, first)
             && HonestCallRun(Step(w0, key, first), key, between)
    requires HonestCall(Run(Step(Run(w, key, before), key, first), key, between), key, second)
    requires Transmits(Run(Step(Run(w, key, before), key, first), key, between), key, second, token)
    ensures first.Perform? && first.call.Refresh? && 3 <= first.steps
    ensures LeavesTokenGood(Run(w, key, before).slot.canonical.value, first.call.reply)
  {
    var w0 := Run(w, key, before);
    EmptyIsSafe(w, key);
    RunsKeepCore(w, key, before);
    TransmitsExactlyWhen(w0, key, first, token);
    if first.steps < 3 || !LeavesTokenGood(w0.slot.canonical.value, first.call.reply) {
      UnansweredIsRetired(w0, key, first, token);
      var w1 := Step(w0, key, first);
      StepKeepsCore(w0, key, first);
      RetiredForEver(w1, key, between, token);
      TransmitsExactlyWhen(Run(w1, key, between), key, second, token);
      assert false;
    }
  }
}
