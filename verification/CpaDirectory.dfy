/** The consumer's credential directory: what a file is to one account, and the scan
    that finds the account's own file or refuses to touch the directory. */
module CpaDirectory {
  import opened Basics
  import opened Grants

  /** The JSON members the Broker reads or writes, and every other one by name. */
  datatype Field =
    | Type | AccessToken | IdToken | AccountId | Email | Expired | ExpiresAt | LastRefresh
    | PlanType | SubscriptionActiveUntil | RefreshToken | RefreshOwner | NotraceKey
    | NotraceGeneration | Disabled | TokenObject | Other(name: string)

  /** JInstant is the RFC 3339 text of an instant. */
  datatype Json =
    | JNull | JBool(b: bool) | JNum(n: int) | JStr(s: string) | JInstant(seconds: nat)
    | JArr(items: seq<Json>) | JObj(fields: map<Field, Json>)
  {
    function Get(f: Field): Option<Json> {
      if JObj? && f in fields then Some(fields[f]) else None
    }

    function Text(f: Field): Option<string> {
      var v := Get(f);
      if v.Some? && v.value.JStr? then Some(v.value.s) else None
    }
  }

  /** A directory entry as a read of it turns out. */
  datatype CpaFile = Link | Unreadable | TooLarge | Garbage | Doc(value: Json)

  type Directory = map<string, CpaFile>

  const OWNER := "notrace_broker"

  // ----- Names -----

  /** Stands in for the SHA-256 hex digest of an account key; only injectivity matters. */
  function HashKey(key: string): string {
    key
  }

  predicate StemChar(c: char) {
    ('a' <= c <= 'z') || ('A' <= c <= 'Z') || ('0' <= c <= '9') || c in {'@', '.', '+', '-', '_'}
  }

  /** The filter also drops the white space that the source trims first. */
  function FilterStem(s: string): string {
    if s == [] then [] else (if StemChar(s[0]) then [s[0]] else []) + FilterStem(s[1..])
  }

  function FileStem(email: string, key: string): string {
    var stem := FilterStem(email);
    if stem == [] then "notrace_" + HashKey(key) else stem
  }

  function CanonicalName(g: Grant, key: string): string {
    FileStem(g.email, key) + ".json"
  }

  function LegacyName(key: string): string {
    "notrace_" + HashKey(key) + ".json"
  }

  predicate Reserved(name: string, g: Grant, key: string) {
    name == CanonicalName(g, key) || name == LegacyName(key)
  }

  /** The file name has the extension "json": a name that is only ".json" has none. */
  predicate HasJsonExtension(name: string) {
    EndsWith(name, ".json") && 5 < |name|
  }

  lemma CanonicalNameIsScanned(g: Grant, key: string)
    ensures HasJsonExtension(CanonicalName(g, key))
  {
  }

  lemma {:induction false} FilteredText(s: string)
    ensures forall c | c in FilterStem(s) :: StemChar(c)
    ensures (forall c | c in s :: StemChar(c)) ==> FilterStem(s) == s
    decreases |s|
  {
    if s != [] {
      FilteredText(s[1..]);
      assert s == [s[0]] + s[1..];
    }
  }

  /** The name has no path separator and nothing else unusual, whatever the email is; and an
      email of plain characters is the name itself. */
  lemma NameStaysInTheDirectory(g: Grant, key: string)
    requires forall c | c in key :: StemChar(c)
    ensures forall c | c in CanonicalName(g, key) :: StemChar(c)
    ensures g.email != "" && (forall c | c in g.email :: StemChar(c)) ==> CanonicalName(g, key) == g.email + ".json"
  {
    FilteredText(g.email);
  }

  // ----- Documents -----

  predicate IsManaged(v: Json, key: string) {
    v.Text(RefreshOwner) == Some(OWNER) && v.Text(NotraceKey) == Some(key)
  }

  predicate HoldsRefreshToken(v: Json) {
    v.Text(RefreshToken).Some? && v.Text(RefreshToken).value != ""
  }

  predicate IdentityMatches(v: Json, g: Grant) {
    var tokens := if v.Get(TokenObject).Some? then v.Get(TokenObject).value else v;
    var email, account := v.Text(Email).Or(tokens.Text(Email)), v.Text(AccountId).Or(tokens.Text(AccountId));
    || (email.Some? && SameIgnoringCase(email.value, g.email))
    || (account.Some? && account.value == g.accountId)
  }

  /** The text of a field that names the identity: the document's own, or else the one in its
      token object. */
  predicate Says(v: Json, f: Field, text: string) {
    || v.Get(f) == Some(JStr(text))
    || (&& (v.Get(f).None? || !v.Get(f).value.JStr?)
        && v.Get(TokenObject).Some? && v.Get(TokenObject).value.Get(f) == Some(JStr(text)))
  }

  /** A document is of the grant's identity exactly when it says the grant's account id, or its
      email in whatever letter case. */
  lemma IdentityMatchesExactlyWhen(v: Json, g: Grant)
    ensures IdentityMatches(v, g) <==>
              Says(v, AccountId, g.accountId) || exists email :: Says(v, Email, email) && SameIgnoringCase(email, g.email)
  {
    var tokens := if v.Get(TokenObject).Some? then v.Get(TokenObject).value else v;
    var email := v.Text(Email).Or(tokens.Text(Email));
    if email.Some? {
      assert Says(v, Email, email.value);
    }
    forall e | Says(v, Email, e)
      ensures email == Some(e)
    {
    }
  }

  function OptionalText(s: Option<string>): Json {
    if s.Some? then JStr(s.value) else JNull
  }

  /** The access-only document of a grant: its refresh token is always blank. */
  function Projection(g: Grant): Json {
    var claimed := if g.idToken.claims.Some? then g.idToken.claims.value.subscription else None;
    JObj(map[
      Type := JStr("codex"), AccessToken := JStr(g.accessToken.raw), IdToken := JStr(g.idToken.raw),
      AccountId := JStr(g.accountId), Email := JStr(g.email), Expired := JInstant(g.expiresAt),
      ExpiresAt := JNum(g.expiresAt), LastRefresh := JInstant(g.lastRefreshAt),
      PlanType := OptionalText(g.planType), SubscriptionActiveUntil := OptionalText(g.subscription.Or(claimed)),
      RefreshToken := JStr(""), RefreshOwner := JStr(OWNER), NotraceKey := JStr(g.key),
      NotraceGeneration := JNum(g.generation)])
  }

  /** The projection to write over a file: its operator's "disabled" switch is kept. */
  function ProjectionOver(g: Grant, existing: Option<Json>): Json {
    if existing.Some? && existing.value.Get(Disabled).Some?
    then JObj(Projection(g).fields[Disabled := existing.value.Get(Disabled).value])
    else Projection(g)
  }

  /** A document of this grant's current credential, whatever its "disabled" switch says. */
  predicate HoldsCurrent(v: Json, g: Grant) {
    v.JObj? && JObj(v.fields - {Disabled}) == Projection(g)
  }

  lemma ProjectionIsCurrent(g: Grant, existing: Option<Json>)
    ensures HoldsCurrent(ProjectionOver(g, existing), g)
    ensures IsManaged(ProjectionOver(g, existing), g.key)
    ensures !HoldsRefreshToken(ProjectionOver(g, existing))
    ensures ProjectionOver(g, Some(ProjectionOver(g, existing))) == ProjectionOver(g, existing)
    ensures existing.Some? ==> ProjectionOver(g, existing).Get(Disabled) == existing.value.Get(Disabled)
    ensures ProjectionOver(g, existing).Get(NotraceGeneration) == Some(JNum(g.generation))
  {
    var v := ProjectionOver(g, existing);
    assert v.fields - {Disabled} == Projection(g).fields;
    if existing.Some? && existing.value.Get(Disabled).Some? {
      assert v.Get(Disabled) == existing.value.Get(Disabled);
    }
  }

  /** The tokens, without the refresh token, and the account they are for. */
  predicate CarriesTokens(v: Json, g: Grant) {
    && v.Get(AccessToken) == Some(JStr(g.accessToken.raw)) && v.Get(IdToken) == Some(JStr(g.idToken.raw))
    && v.Get(RefreshToken) == Some(JStr(""))
    && v.Get(AccountId) == Some(JStr(g.accountId)) && v.Get(Email) == Some(JStr(g.email))
  }

  /** The times and the plan. */
  predicate CarriesTerms(v: Json, g: Grant) {
    && v.Get(ExpiresAt) == Some(JNum(g.expiresAt)) && v.Get(Expired) == Some(JInstant(g.expiresAt))
    && v.Get(LastRefresh) == Some(JInstant(g.lastRefreshAt))
    && v.Get(PlanType) == Some(if g.planType.Some? then JStr(g.planType.value) else JNull)
    && v.Get(SubscriptionActiveUntil) == Some(
         if g.subscription.Some? then JStr(g.subscription.value)
         else if g.idToken.claims.Some? && g.idToken.claims.value.subscription.Some?
         then JStr(g.idToken.claims.value.subscription.value) else JNull)
  }

  /** The account's marker and generation. */
  predicate CarriesMarker(v: Json, g: Grant) {
    && v.Get(Type) == Some(JStr("codex")) && v.Get(RefreshOwner) == Some(JStr("notrace_broker"))
    && v.Get(NotraceKey) == Some(JStr(g.key)) && v.Get(NotraceGeneration) == Some(JNum(g.generation))
  }

  /** All of the credential that a consumer sees. */
  predicate Carries(v: Json, g: Grant) {
    CarriesTokens(v, g) && CarriesTerms(v, g) && CarriesMarker(v, g)
  }

  lemma OverLooksAlike(g: Grant, existing: Option<Json>, f: Field)
    requires f != Disabled && f in Projection(g).fields
    ensures ProjectionOver(g, existing).Get(f) == Some(Projection(g).fields[f])
  {
  }

  lemma CarriesItsTokens(g: Grant, existing: Option<Json>)
    ensures CarriesTokens(ProjectionOver(g, existing), g)
  {
    OverLooksAlike(g, existing, AccessToken);
    OverLooksAlike(g, existing, IdToken);
    OverLooksAlike(g, existing, RefreshToken);
    OverLooksAlike(g, existing, AccountId);
    OverLooksAlike(g, existing, Email);
  }

  lemma CarriesItsTerms(g: Grant, existing: Option<Json>)
    ensures CarriesTerms(ProjectionOver(g, existing), g)
  {
    OverLooksAlike(g, existing, ExpiresAt);
    OverLooksAlike(g, existing, Expired);
    OverLooksAlike(g, existing, LastRefresh);
    OverLooksAlike(g, existing, PlanType);
    OverLooksAlike(g, existing, SubscriptionActiveUntil);
  }

  lemma CarriesItsMarker(g: Grant, existing: Option<Json>)
    ensures CarriesMarker(ProjectionOver(g, existing), g)
  {
    OverLooksAlike(g, existing, Type);
    OverLooksAlike(g, existing, RefreshOwner);
    OverLooksAlike(g, existing, NotraceKey);
    OverLooksAlike(g, existing, NotraceGeneration);
  }

  /** Whatever document it replaces, a projection carries the credential. */
  lemma ProjectionCarriesTheCredential(g: Grant, existing: Option<Json>)
    ensures Carries(ProjectionOver(g, existing), g)
  {
    CarriesItsTokens(g, existing);
    CarriesItsTerms(g, existing);
    CarriesItsMarker(g, existing);
  }

  // ----- Scan -----

  datatype Verdict = Ignore | Stop(error: Error) | Own(value: Json)

  /** What one directory entry means for this account. */
  function Judge(name: string, cpa: Directory, key: string, g: Grant): Verdict {
    if !HasJsonExtension(name) || name !in cpa then Ignore
    else match cpa[name]
      case Link => Stop(Storage)
      case Unreadable => if Reserved(name, g, key) || Contains(name, g.email) then Stop(Storage) else Ignore
      case TooLarge => Stop(InputTooLarge)
      case Garbage => if Reserved(name, g, key) then Stop(ConsumerConflict) else Ignore
      case Doc(v) =>
        if IsManaged(v, key) then
          if HoldsRefreshToken(v) then Stop(ConsumerConflict) else Own(v)
        else if IdentityMatches(v, g) || Reserved(name, g, key) then Stop(ConsumerConflict)
        else Ignore
  }

  /** The account's own file, if any. */
  type Found = Option<(string, Json)>

  /** The scan from the point where `found` has been met so far. */
  function ScanFrom(listing: seq<string>, found: Found, cpa: Directory, key: string, g: Grant): Result<Found, Error> {
    if listing == [] then Ok(found)
    else match Judge(listing[0], cpa, key, g)
      case Ignore => ScanFrom(listing[1..], found, cpa, key, g)
      case Stop(error) => Err(error)
      case Own(v) =>
        if found.Some? then Err(ConsumerConflict)
        else ScanFrom(listing[1..], Some((listing[0], v)), cpa, key, g)
  }

  function Scan(listing: seq<string>, cpa: Directory, key: string, g: Grant): Result<Found, Error> {
    ScanFrom(listing, None, cpa, key, g)
  }

  /** A listing that names every file once. */
  predicate Lists(listing: seq<string>, cpa: Directory) {
    NoDuplicates(listing) && forall name | name in cpa :: name in listing
  }

  /** A file that makes the scan refuse the directory. */
  predicate Refuses(name: string, cpa: Directory, key: string, g: Grant) {
    Judge(name, cpa, key, g).Stop?
  }

  /** A file carrying this account's marker under a name the scan looks at. */
  predicate IsOwnFile(name: string, cpa: Directory, key: string) {
    name in cpa && HasJsonExtension(name) && cpa[name].Doc? && IsManaged(cpa[name].value, key)
  }

  ghost predicate AtMostOneOwnFile(cpa: Directory, key: string) {
    forall a, b :: IsOwnFile(a, cpa, key) && IsOwnFile(b, cpa, key) ==> a == b
  }

  lemma {:induction false} ScanFromMeaning(listing: seq<string>, found: Found, cpa: Directory, key: string, g: Grant)
    requires NoDuplicates(listing)
    requires found.Some? ==> found.value.0 !in listing
    ensures ScanFrom(listing, found, cpa, key, g).Ok? <==>
              && (forall n | n in listing :: !Judge(n, cpa, key, g).Stop?)
              && (forall n | n in listing :: Judge(n, cpa, key, g).Own? ==> found.None?)
              && (forall m, n | m in listing && n in listing ::
                    Judge(m, cpa, key, g).Own? && Judge(n, cpa, key, g).Own? ==> m == n)
    ensures var r := ScanFrom(listing, found, cpa, key, g);
            r.Ok? ==>
              && (forall n | n in listing && Judge(n, cpa, key, g).Own? ::
                    r.value == Some((n, Judge(n, cpa, key, g).value)))
              && ((forall n | n in listing :: !Judge(n, cpa, key, g).Own?) ==> r.value == found)
    decreases |listing|
  {
    if listing != [] {
      var head, tail := listing[0], listing[1..];
      assert forall n :: n in listing <==> n == head || n in tail;
      match Judge(head, cpa, key, g) {
        case Ignore => ScanFromMeaning(tail, found, cpa, key, g);
        case Stop(_) =>
        case Own(v) =>
          if found.None? {
            ScanFromMeaning(tail, Some((head, v)), cpa, key, g);
          }
      }
    }
  }

  /** In whatever order the directory is listed, the scan succeeds exactly when no file
      refuses it and at most one file is the account's own, and then it reports that file. */
  lemma ScanMeaning(listing: seq<string>, cpa: Directory, key: string, g: Grant)
    requires Lists(listing, cpa)
    ensures Scan(listing, cpa, key, g).Ok? <==>
              (forall n | n in cpa :: !Refuses(n, cpa, key, g)) && AtMostOneOwnFile(cpa, key)
    ensures var r := Scan(listing, cpa, key, g);
            r.Ok? ==>
              && (forall n :: IsOwnFile(n, cpa, key) ==> r.value == Some((n, cpa[n].value)))
              && (r.value.Some? ==> IsOwnFile(r.value.value.0, cpa, key) && cpa[r.value.value.0] == Doc(r.value.value.1))
  {
    ScanFromMeaning(listing, None, cpa, key, g);
    var r := Scan(listing, cpa, key, g);
    forall n | n in cpa
      ensures Judge(n, cpa, key, g).Own? ==> IsOwnFile(n, cpa, key) && cpa[n] == Doc(Judge(n, cpa, key, g).value)
      ensures IsOwnFile(n, cpa, key) ==> Judge(n, cpa, key, g).Own? || Refuses(n, cpa, key, g)
    {
    }
    if r.Ok? {
      if forall n | n in listing :: !Judge(n, cpa, key, g).Own? {
        assert r.value == None;
      } else {
        var n :| n in listing && Judge(n, cpa, key, g).Own?;
        assert r.value == Some((n, Judge(n, cpa, key, g).value));
      }
    }
  }

  /** After a scan that found no file of the account, its email-derived name is free; and if it
      found one, any file of that name is the account's own. */
  lemma ScanLeavesNameFree(listing: seq<string>, cpa: Directory, key: string, g: Grant)
    requires Lists(listing, cpa) && Scan(listing, cpa, key, g).Ok?
    ensures CanonicalName(g, key) in cpa ==> IsOwnFile(CanonicalName(g, key), cpa, key)
    ensures Scan(listing, cpa, key, g).value.None? ==> CanonicalName(g, key) !in cpa
  {
    ScanMeaning(listing, cpa, key, g);
    CanonicalNameIsScanned(g, key);
    assert CanonicalName(g, key) in cpa ==> !Refuses(CanonicalName(g, key), cpa, key, g);
  }

  // ----- What stops the scan, told from the files alone -----

  /** A file that may hold a credential the Broker does not own: the account's own file with a
      refresh token in it, another credential of the same identity, a file that cannot be
      read but is named after the email, a link, or a file too large to read. */
  predicate Suspicious(name: string, cpa: Directory, key: string, g: Grant) {
    name in cpa && HasJsonExtension(name) &&
    match cpa[name]
    case Doc(v) => if IsManaged(v, key) then HoldsRefreshToken(v) else IdentityMatches(v, g)
    case Unreadable => Contains(name, g.email)
    case Garbage => false
    case Link => true
    case TooLarge => true
  }

  /** A file that has one of the account's two names but not its marker: another document, or
      one that cannot be read or parsed. */
  predicate Squats(name: string, cpa: Directory, key: string, g: Grant) {
    && name in cpa && (name == CanonicalName(g, key) || name == "notrace_" + HashKey(key) + ".json")
    && (cpa[name].Unreadable? || cpa[name].Garbage? || (cpa[name].Doc? && !IsManaged(cpa[name].value, key)))
  }

  /** Nothing in the directory stands in the account's way. */
  ghost predicate Clear(cpa: Directory, key: string, g: Grant) {
    && AtMostOneOwnFile(cpa, key)
    && forall n | n in cpa :: !Suspicious(n, cpa, key, g) && !Squats(n, cpa, key, g)
  }

  lemma LegacyNameIsScanned(key: string)
    ensures HasJsonExtension(LegacyName(key))
  {
  }

  lemma RefusesExactlyWhen(name: string, cpa: Directory, key: string, g: Grant)
    ensures Refuses(name, cpa, key, g) <==> Suspicious(name, cpa, key, g) || Squats(name, cpa, key, g)
  {
    CanonicalNameIsScanned(g, key);
    LegacyNameIsScanned(key);
  }

  /** In whatever order the directory is listed, the scan succeeds exactly when nothing in it
      stands in the way, and then it reports the account's own file, if there is one. */
  lemma ScanSucceedsExactlyWhen(listing: seq<string>, cpa: Directory, key: string, g: Grant)
    requires Lists(listing, cpa)
    ensures Scan(listing, cpa, key, g).Ok? <==> Clear(cpa, key, g)
    ensures Scan(listing, cpa, key, g) == Ok(None) <==> Clear(cpa, key, g) && forall n :: !IsOwnFile(n, cpa, key)
    ensures forall n | IsOwnFile(n, cpa, key) && Clear(cpa, key, g) ::
              Scan(listing, cpa, key, g) == Ok(Some((n, cpa[n].value)))
  {
    ScanMeaning(listing, cpa, key, g);
    forall n | n in cpa
      ensures Refuses(n, cpa, key, g) <==> Suspicious(n, cpa, key, g) || Squats(n, cpa, key, g)
    {
      RefusesExactlyWhen(n, cpa, key, g);
    }
  }

  /** A file for which a scan stops with this error. */
  predicate Explains(name: string, cpa: Directory, key: string, g: Grant, error: Error) {
    name in cpa &&
    match cpa[name]
    case Link => error == Storage && Suspicious(name, cpa, key, g)
    case Unreadable => error == Storage && (Suspicious(name, cpa, key, g) || Squats(name, cpa, key, g))
    case TooLarge => error == InputTooLarge && Suspicious(name, cpa, key, g)
    case Garbage => error == ConsumerConflict && Squats(name, cpa, key, g)
    case Doc(_) => error == ConsumerConflict && (Suspicious(name, cpa, key, g) || Squats(name, cpa, key, g))
  }

  predicate TwoOwnFiles(listing: seq<string>, cpa: Directory, key: string) {
    exists m, n | m in listing && n in listing :: m != n && IsOwnFile(m, cpa, key) && IsOwnFile(n, cpa, key)
  }

  lemma {:induction false} ScanFromErrorIsExplained(listing: seq<string>, found: Found, cpa: Directory, key: string,
                                                    g: Grant)
    requires NoDuplicates(listing)
    ensures var r := ScanFrom(listing, found, cpa, key, g);
            r.Err? ==>
              || (exists n | n in listing :: Explains(n, cpa, key, g, r.error))
              || (r.error == ConsumerConflict && TwoOwnFiles(listing, cpa, key))
              || (r.error == ConsumerConflict && found.Some? && exists n | n in listing :: IsOwnFile(n, cpa, key))
    decreases |listing|
  {
    if listing != [] {
      var head, tail := listing[0], listing[1..];
      assert head in listing && forall n :: n in tail ==> n in listing && n != head;
      match Judge(head, cpa, key, g) {
        case Ignore => ScanFromErrorIsExplained(tail, found, cpa, key, g);
        case Stop(error) =>
          RefusesExactlyWhen(head, cpa, key, g);
          assert Explains(head, cpa, key, g, error);
        case Own(v) =>
          assert IsOwnFile(head, cpa, key);
          if found.None? {
            ScanFromErrorIsExplained(tail, Some((head, v)), cpa, key, g);
          }
      }
    }
  }

  /** A scan that stops says why: a storage error for a link or for a file it cannot read, an
      oversized input for one that is too large, and otherwise a conflict, for a file that is
      not the Broker's or for a second one that is. */
  lemma ScanErrorIsExplained(listing: seq<string>, cpa: Directory, key: string, g: Grant)
    requires NoDuplicates(listing) && Scan(listing, cpa, key, g).Err?
    ensures var error := Scan(listing, cpa, key, g).error;
            || (exists n | n in listing :: Explains(n, cpa, key, g, error))
            || (error == ConsumerConflict && TwoOwnFiles(listing, cpa, key))
  {
    ScanFromErrorIsExplained(listing, None, cpa, key, g);
  }

  /** The file of this account among the listed names, as the scan loop finds it. */
  method FindOwnFile(listing: seq<string>, cpa: Directory, key: string, g: Grant)
    returns (r: Result<Found, Error>)
    ensures r == Scan(listing, cpa, key, g)
    ensures Lists(listing, cpa) ==> (r.Ok? <==> Clear(cpa, key, g))
    ensures Lists(listing, cpa) && r.Ok? ==>
              (forall n | IsOwnFile(n, cpa, key) :: r.value == Some((n, cpa[n].value)))
              && ((forall n :: !IsOwnFile(n, cpa, key)) ==> r.value.None?)
  {
    if Lists(listing, cpa) {
      ScanSucceedsExactlyWhen(listing, cpa, key, g);
    }
    var managed: Found := None;
    for i := 0 to |listing|
      invariant ScanFrom(listing[i..], managed, cpa, key, g) == Scan(listing, cpa, key, g)
    {
      assert listing[i..][0] == listing[i] && listing[i..][1..] == listing[i + 1..];
      match Judge(listing[i], cpa, key, g) {
        case Ignore =>
        case Stop(error) => return Err(error);
        case Own(v) =>
          if managed.Some? {
            return Err(ConsumerConflict);
          }
          managed := Some((listing[i], v));
      }
    }
    return Ok(managed);
  }
}
