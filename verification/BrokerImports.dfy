/** What an import comes to, told from the imported body alone: which bodies are accepted,
    what of the body ends up in which field, and that the consumer receives its tokens. */
module BrokerImports {
  import opened Basics
  import opened Grants
  import opened CpaDirectory
  import opened BrokerPlans
  import opened BrokerRuns
  import opened BrokerReplies
  import opened SyncOutcomes

  /** All three tokens are there, and the claims of access and ID token can be read. */
  predicate Legible(body: GrantBody) {
    && body.Fields? && body.access.Some? && body.refresh.Some? && body.id.Some?
    && body.access.value.claims.Some? && body.id.value.claims.Some?
  }

  /** The email: the ID token's, else the access token's. */
  function EmailIn(body: GrantBody): Option<string>
    requires Legible(body)
  {
    var ac, ic := body.access.value.claims.value, body.id.value.claims.value;
    if ic.email.Some? then ic.email else ac.email
  }

  /** The account id: the access token's, else the ID token's, else the declared one. */
  function AccountIn(body: GrantBody): Option<string>
    requires Legible(body)
  {
    var ac, ic := body.access.value.claims.value, body.id.value.claims.value;
    if ac.account.Some? then ac.account else if ic.account.Some? then ic.account else body.account
  }

  /** The body names an email and an account. */
  predicate Identified(body: GrantBody) {
    Legible(body) && EmailIn(body).Some? && AccountIn(body).Some?
  }

  /** A declared account id is that of the tokens. */
  predicate Consistent(body: GrantBody) {
    Identified(body) && (body.account.Some? ==> body.account == AccountIn(body))
  }

  /** The access token has not expired. */
  predicate Alive(body: GrantBody, now: nat) {
    Legible(body) && body.access.value.claims.value.exp.Some? && now < body.access.value.claims.value.exp.value
  }

  /** `g` is the credential in the body: each token in its own field, expiry and issue time
      from the access token, and the identity and plan as the claims give them. */
  predicate Holds(g: Grant, body: GrantBody, now: nat)
    requires Legible(body)
  {
    var ac, ic := body.access.value.claims.value, body.id.value.claims.value;
    && g.accessToken == body.access.value && g.idToken == body.id.value && g.refreshToken == body.refresh.value
    && Some(g.expiresAt) == ac.exp && g.issuedAt == (if ac.iat.Some? then ac.iat.value else now)
    && g.lastRefreshAt == now
    && Some(g.email) == EmailIn(body) && Some(g.accountId) == AccountIn(body)
    && g.planType == (if ac.plan.Some? then ac.plan else ic.plan)
    && g.subscription == (if ac.subscription.Some? then ac.subscription
                          else if ic.subscription.Some? then ic.subscription
                          else if body.tokensSubscription.Some? then body.tokensSubscription
                          else body.rootSubscription)
    && g.handoffId == Digest(body.refresh.value)
  }

  /** A fresh record: nothing failed, nothing in flight, and the consumer is off. */
  predicate Untroubled(g: Grant) {
    && !g.inFlight && g.error.None? && g.failures == 0 && g.nextRetryAt.None?
    && !g.cpaEnabled && g.cpaSyncError.None? && !g.cpaSyncSuspended
  }

  /** The counters of a first import, or of one that continues an earlier grant. */
  predicate Continues(before: Option<Grant>, g: Grant) {
    match before
    case None =>
      && g.generation == 1 && g.refreshCount == 0 && g.automaticRefreshCount == 0
      && g.cpaSyncedGeneration.None? && g.cockpitSyncedGeneration.None?
    case Some(c) =>
      && g.generation == c.generation + 1
      && g.refreshCount == c.refreshCount && g.automaticRefreshCount == c.automaticRefreshCount
      && g.cpaSyncedGeneration == c.cpaSyncedGeneration && g.cockpitSyncedGeneration == c.cockpitSyncedGeneration
  }

  /** What the body says is of the account that `c` is of. */
  predicate OfAccount(body: GrantBody, c: Grant)
    requires Identified(body)
  {
    SameIgnoringCase(EmailIn(body).value, c.email) && AccountIn(body).value == c.accountId
  }

  /** The import is accepted: a consistent, living credential of the account, and neither the
      one handed over last nor the one the last refresh brought. */
  predicate Accepted(slot: Slot, body: GrantBody, now: nat) {
    && Consistent(body) && Alive(body, now)
    && (slot.canonical.Some? ==>
          var c := slot.canonical.value;
          OfAccount(body, c) && c.handoffId != Digest(body.refresh.value) && c.refreshToken != body.refresh.value)
  }

  /** Why an import is refused. */
  function Refusal(slot: Slot, body: GrantBody, now: nat): Error {
    if body.TooLarge? then InputTooLarge
    else if !Identified(body) then InvalidGrant
    else if !Consistent(body) then IdentityMismatch
    else if !Alive(body, now) then InvalidGrant
    else if slot.canonical.Some? && !OfAccount(body, slot.canonical.value) then IdentityMismatch
    else InvalidGrant
  }

  lemma ParsedMeaning(key: string, body: GrantBody, now: nat)
    ensures ParseGrant(key, body, now).Ok? <==> Consistent(body) && Alive(body, now)
    ensures var r := ParseGrant(key, body, now);
            if r.Ok? then Holds(r.value, body, now) && Untroubled(r.value) && Continues(None, r.value) && r.value.key == key
            else r.error == Refusal(Slot(None, None), body, now)
  {
  }

  /** A completed import, for every body: accepted, it leaves the body's credential in the grant
      file and no journal; handed over before, it changes nothing and answers with the grant;
      otherwise it changes nothing and says why. */
  lemma CompletedImport(w: World, key: string, body: GrantBody, now: nat, n: nat)
    requires 2 <= n
    ensures var w' := Step(w, key, Perform(Import(body, now), n));
            var answer := Answer(PlanOf(w, key, Import(body, now)), n);
            if Accepted(w.slot, body, now) then
              && w'.cpa == w.cpa && w'.slot.journal.None? && w'.slot.canonical.Some?
              && var g := w'.slot.canonical.value;
                 && answer == Ok(g) && g.key == key
                 && Holds(g, body, now) && Untroubled(g) && Continues(w.slot.canonical, g)
            else
              && w' == w
              && if Consistent(body) && Alive(body, now) && OfAccount(body, w.slot.canonical.value)
                    && w.slot.canonical.value.handoffId == Digest(body.refresh.value)
                 then answer == Ok(w.slot.canonical.value)
                 else answer == Err(Refusal(w.slot, body, now))
  {
    ParsedMeaning(key, body, now);
    var plan := PlanOf(w, key, Import(body, now));
    if plan.Then? {
      var w1 := Apply(w, plan.effect);
      OneStep(w, plan.effect, plan.rest, n);
      if plan.rest.Then? {
        OneStep(w1, plan.rest.effect, plan.rest.rest, n - 1);
      }
    }
  }

  /** Nothing in the directory stands in the way of publishing for the first time. */
  ghost predicate Open(cpa: Directory, key: string, g: Grant, now: nat) {
    && AtMostOneOwnFile(cpa, key)
    && (forall n | n in cpa :: !Suspicious(n, cpa, key, g) && !Squats(n, cpa, key, g))
    && now < g.expiresAt
  }

  /** From the imported body to the consumer: after an accepted import, switching the consumer on,
      and a sync that nothing obstructs, the file under the email-derived name holds the access
      and ID token of the body, and it is the account's only file. */
  lemma ImportedTokensReachTheConsumer(w: World, key: string, body: GrantBody, now: nat, listing: seq<string>, later: nat)
    requires Accepted(w.slot, body, now) && Lists(listing, w.cpa)
    ensures var w1 := Step(w, key, Perform(Import(body, now), 2));
            var w2 := Step(w1, key, Perform(SetCpa(true, true), 1));
            var w3 := Step(w2, key, Perform(Sync(Listed(listing), later, NoFault), 3));
            && w1.slot.canonical.Some?
            && var g := w1.slot.canonical.value;
               Open(w.cpa, key, g, later) ==>
                 var name := CanonicalName(g, key);
                 && name in w3.cpa && w3.cpa[name].Doc?
                 && w3.cpa[name].value.Get(AccessToken) == Some(JStr(body.access.value.raw))
                 && w3.cpa[name].value.Get(IdToken) == Some(JStr(body.id.value.raw))
                 && w3.cpa[name].value.Get(RefreshToken) == Some(JStr(""))
                 && (forall n :: IsOwnFile(n, w3.cpa, key) <==> n == name)
                 && w3.slot.canonical.Some? && w3.slot.canonical.value.cpaSyncedGeneration == Some(g.generation)
  {
    CompletedImport(w, key, body, now, 2);
    var w1 := Step(w, key, Perform(Import(body, now), 2));
    var g := w1.slot.canonical.value;
    EnabledMeaning(w1, key, true, true, 1);
    var w2 := Step(w1, key, Perform(SetCpa(true, true), 1));
    if Open(w.cpa, key, g, later) {
      var enabled := w2.slot.canonical.value;
      assert forall n :: Suspicious(n, w.cpa, key, enabled) == Suspicious(n, w.cpa, key, g);
      assert forall n :: Squats(n, w.cpa, key, enabled) == Squats(n, w.cpa, key, g);
      SyncPublishesExactlyWhen(w2, key, listing, later, 3);
    }
  }
}
