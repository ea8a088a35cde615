/** The Broker's grant record and the two pure steps that make a new one: parsing
    an imported credential and reading the token endpoint's reply.

    A JSON Web Token carries its decoded claims; a refresh token is plain text. A
    handoff id is the digest of the refresh token it came with, so it is modelled
    as that token under an injective wrapper. Blank JSON fields count as missing. */
module Grants {
  import opened Basics

  datatype Error =
    | Config | AccountMissing | InvalidGrant | IdentityMismatch | ReauthRequired
    | ServiceUnavailable | Unchanged | Busy | Storage | InputTooLarge
    | RecoveryRequired | ConsumerConflict | ConsumerMissing

  datatype Claims = Claims(
    email: Option<string>, account: Option<string>, plan: Option<string>,
    subscription: Option<string>, exp: Option<nat>, iat: Option<nat>)

  datatype Jwt = Jwt(raw: string, claims: Option<Claims>)

  datatype Digest = Digest(of: string)

  datatype Grant = Grant(
    key: string,
    email: string,
    accountId: string,
    planType: Option<string>,
    subscription: Option<string>,
    accessToken: Jwt,
    idToken: Jwt,
    refreshToken: string,
    expiresAt: nat,
    issuedAt: nat,
    lastRefreshAt: nat,
    generation: nat,
    refreshCount: nat,
    automaticRefreshCount: nat,
    handoffId: Digest,
    inFlight: bool,
    error: Option<Error>,
    failures: nat,
    nextRetryAt: Option<nat>,
    cpaEnabled: bool,
    cpaSyncedGeneration: Option<nat>,
    cpaSyncError: Option<Error>,
    cpaSyncSuspended: bool,
    cockpitSyncedGeneration: Option<nat>)
  {
    /** The time from which a refresh is due: a fifth of the lifetime before expiry, but no less
        than twelve seconds and no more than 36 hours. */
    function DueAt(): (due: nat)
      ensures due <= expiresAt <= due + 129600
      ensures 12 <= expiresAt ==> due + 12 <= expiresAt
      ensures expiresAt <= issuedAt + 60 ==> expiresAt <= due + 12
      ensures issuedAt + 60 <= expiresAt <= issuedAt + 648000 ==>
                5 * (expiresAt - due) <= expiresAt - issuedAt < 5 * (expiresAt - due) + 5
      ensures issuedAt + 648000 <= expiresAt ==> due + 129600 == expiresAt
    {
      var lifetime := Max(SaturatingSub(expiresAt, issuedAt), 60);
      SaturatingSub(expiresAt, Clamp(lifetime / 5, 10, MAX_LEAD))
    }

    /** A terminal OAuth outcome is recorded. */
    predicate Terminal() {
      error == Some(ReauthRequired) || error == Some(RecoveryRequired)
    }

    /** No token request may be made from this record. */
    predicate Blocked() {
      inFlight || Terminal()
    }

    function BlockedBy(): Error
      requires Blocked()
    {
      if error.Some? then error.value else RecoveryRequired
    }
  }

  const MAX_LEAD: nat := 36 * 3600

  predicate SameIdentity(a: Grant, b: Grant) {
    SameIgnoringCase(a.email, b.email) && a.accountId == b.accountId
  }

  /** Two records of one credential: they differ only in bookkeeping. */
  predicate SameCredential(a: Grant, b: Grant) {
    a == b.(inFlight := a.inFlight, error := a.error, failures := a.failures, nextRetryAt := a.nextRetryAt,
            cpaEnabled := a.cpaEnabled, cpaSyncedGeneration := a.cpaSyncedGeneration,
            cpaSyncError := a.cpaSyncError, cpaSyncSuspended := a.cpaSyncSuspended,
            cockpitSyncedGeneration := a.cockpitSyncedGeneration)
  }

  // ----- Import -----

  datatype GrantBody =
    | TooLarge
    | NotJson
    | Fields(access: Option<Jwt>, refresh: Option<string>, id: Option<Jwt>, account: Option<string>,
             tokensSubscription: Option<string>, rootSubscription: Option<string>)

  function ParseGrant(key: string, body: GrantBody, now: nat): (r: Result<Grant, Error>)
    ensures r.Ok? ==> body.Fields? && body.refresh == Some(r.value.refreshToken)
    ensures r.Ok? ==> r.value.handoffId == Digest(r.value.refreshToken) && now < r.value.expiresAt
    ensures r.Ok? ==> !r.value.Blocked() && !r.value.cpaEnabled && r.value.key == key
  {
    match body
    case TooLarge => Err(InputTooLarge)
    case NotJson => Err(InvalidGrant)
    case Fields(access, refresh, id, account, tokensSub, rootSub) =>
      if access.None? || refresh.None? || id.None? then Err(InvalidGrant)
      else if access.value.claims.None? || id.value.claims.None? then Err(InvalidGrant)
      else
        var at, it := access.value.claims.value, id.value.claims.value;
        var email, accountId := it.email.Or(at.email), at.account.Or(it.account).Or(account);
        if email.None? || accountId.None? then Err(InvalidGrant)
        else if account.Some? && account != accountId then Err(IdentityMismatch)
        else if at.exp.None? || at.exp.value <= now then Err(InvalidGrant)
        else Ok(Grant(
          key, email.value, accountId.value, at.plan.Or(it.plan),
          at.subscription.Or(it.subscription).Or(tokensSub).Or(rootSub),
          access.value, id.value, refresh.value,
          at.exp.value, if at.iat.Some? then at.iat.value else now, now,
          1, 0, 0, Digest(refresh.value),
          false, None, 0, None, false, None, None, false, None))
  }

  // ----- Token endpoint -----

  /** What came of one token request. */
  datatype Reply =
    | NoClient                                // the HTTP client could not be built: nothing was sent
    | NoConnection                            // the connection was never made
    | Dropped                                 // failed after the connection was made
    | Refused(status: nat, code: string)      // a non-success status
    | Unusable                                // success status, body unreadable, oversized or not JSON
    | Tokens(access: Option<Jwt>, refresh: Option<string>, id: Option<Jwt>, at: nat)

  predicate TerminalCode(status: nat, code: string) {
    status == 401 || code in {"invalid_grant", "invalid_token", "token_revoked",
      "refresh_token_expired", "refresh_token_invalidated", "refresh_token_reused"}
  }

  /** A success reply that identifies the account and its lifetime: an access token whose
      claims, and those of the ID token beside it, can be read, name an email and an account,
      and live for more than a minute. */
  predicate Usable(previous: Grant, reply: Reply) {
    reply.Tokens? && reply.access.Some? && reply.access.value.claims.Some? &&
    var idToken := if reply.id.Some? then reply.id.value else previous.idToken;
    idToken.claims.Some? &&
    var ac, ic := reply.access.value.claims.value, idToken.claims.value;
    && (ac.email.Some? || ic.email.Some?)
    && (ac.account.Some? || ic.account.Some?)
    && ac.exp.Some? && reply.at + 60 < ac.exp.value
  }

  /** The reply names the very tokens that were sent. */
  predicate SameTokens(previous: Grant, reply: Reply) {
    && reply.Tokens? && reply.access.Some? && reply.access.value.raw == previous.accessToken.raw
    && (reply.refresh.None? || reply.refresh.value == previous.refreshToken)
  }

  /** The provider may have rotated the token without the Broker learning the new one. */
  predicate Indefinite(previous: Grant, reply: Reply) {
    reply.Dropped? || reply.Unusable? || (reply.Tokens? && !Usable(previous, reply))
  }

  /** The provider will never accept the token again. */
  predicate RefusedForGood(reply: Reply) {
    && reply.Refused?
    && (|| reply.status == 401
        || reply.code == "invalid_grant" || reply.code == "invalid_token" || reply.code == "token_revoked"
        || reply.code == "refresh_token_expired" || reply.code == "refresh_token_invalidated"
        || reply.code == "refresh_token_reused")
  }

  function RefreshOutcome(previous: Grant, reply: Reply): (r: Result<Grant, Error>)
    ensures r.Ok? <==> Usable(previous, reply) && !SameTokens(previous, reply)
    ensures r == Err(Unchanged) <==> Usable(previous, reply) && SameTokens(previous, reply)
    ensures r == Err(RecoveryRequired) <==> Indefinite(previous, reply)
    ensures r == Err(ReauthRequired) <==> RefusedForGood(reply)
    ensures r == Err(ServiceUnavailable) <==> reply.NoConnection? || (reply.Refused? && !RefusedForGood(reply))
    ensures r == Err(Config) <==> reply.NoClient?
    ensures r.Ok? ==> Rotates(previous, r.value, reply)
  {
    match reply
    case NoClient => Err(Config)
    case NoConnection => Err(ServiceUnavailable)
    case Dropped => Err(RecoveryRequired)
    case Refused(status, code) => Err(if TerminalCode(status, code) then ReauthRequired else ServiceUnavailable)
    case Unusable => Err(RecoveryRequired)
    case Tokens(access, refresh, id, at) =>
      if access.None? then Err(RecoveryRequired)
      else
        var idToken := if id.Some? then id.value else previous.idToken;
        var refreshToken := if refresh.Some? then refresh.value else previous.refreshToken;
        if access.value.claims.None? || idToken.claims.None? then Err(RecoveryRequired)
        else
          var ac, ic := access.value.claims.value, idToken.claims.value;
          var email, accountId := ac.email.Or(ic.email), ac.account.Or(ic.account);
          if email.None? || accountId.None? then Err(RecoveryRequired)
          else if ac.exp.None? || ac.exp.value <= at + 60 then Err(RecoveryRequired)
          else if previous.accessToken.raw == access.value.raw && previous.refreshToken == refreshToken then Err(Unchanged)
          else Ok(previous.(
            accessToken := access.value, refreshToken := refreshToken, idToken := idToken,
            email := email.value, accountId := accountId.value, planType := ac.plan.Or(ic.plan),
            subscription := ac.subscription.Or(ic.subscription).Or(previous.subscription),
            expiresAt := ac.exp.value, issuedAt := if ac.iat.Some? then ac.iat.value else at,
            lastRefreshAt := at, generation := previous.generation + 1, refreshCount := previous.refreshCount + 1))
  }

  /** `next` is the credential the reply brings, one generation and one refresh further: its
      tokens, with the ones sent in place of those it leaves out, the access token's claims
      before the ID token's, and all of the lineage and bookkeeping as it was. */
  predicate Rotates(previous: Grant, next: Grant, reply: Reply) {
    reply.Tokens? && reply.access == Some(next.accessToken) &&
    next.accessToken.claims.Some? && next.idToken.claims.Some? &&
    var ac, ic := next.accessToken.claims.value, next.idToken.claims.value;
    && (if reply.refresh.Some? then reply.refresh == Some(next.refreshToken) else next.refreshToken == previous.refreshToken)
    && (if reply.id.Some? then reply.id == Some(next.idToken) else next.idToken == previous.idToken)
    && Some(next.email) == (if ac.email.Some? then ac.email else ic.email)
    && Some(next.accountId) == (if ac.account.Some? then ac.account else ic.account)
    && next.planType == (if ac.plan.Some? then ac.plan else ic.plan)
    && next.subscription == (if ac.subscription.Some? then ac.subscription
                             else if ic.subscription.Some? then ic.subscription else previous.subscription)
    && Some(next.expiresAt) == ac.exp && reply.at + 60 < next.expiresAt
    && next.issuedAt == (if ac.iat.Some? then ac.iat.value else reply.at)
    && next.lastRefreshAt == reply.at
    && next.generation == previous.generation + 1 && next.refreshCount == previous.refreshCount + 1
    && next.key == previous.key && next.handoffId == previous.handoffId
    && next.automaticRefreshCount == previous.automaticRefreshCount
    && next.inFlight == previous.inFlight && next.error == previous.error
    && next.failures == previous.failures && next.nextRetryAt == previous.nextRetryAt
    && next.cpaEnabled == previous.cpaEnabled && next.cpaSyncedGeneration == previous.cpaSyncedGeneration
    && next.cpaSyncError == previous.cpaSyncError && next.cpaSyncSuspended == previous.cpaSyncSuspended
    && next.cockpitSyncedGeneration == previous.cockpitSyncedGeneration
  }
}
