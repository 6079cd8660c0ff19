/**
 Access tokens: what the token service puts into one, what it accepts back, and the exchange of a
 USER token by a machine client (RFC 8693).

 A signature is modelled by the key that made it; SHA-256 is an uninterpreted function.  Instants
 are microseconds, the registered claims iat and exp whole seconds.
 */
module Tokens {
  import opened Options
  import opened Text

  type Time = int
  type Key = int

  const SECOND: int := 1_000_000

  // ---------------------------------------------------------------------------------------------
  // Claim sets
  // ---------------------------------------------------------------------------------------------

  datatype Json =
    | Null
    | Bool(b: bool)
    | Number(n: int)
    | Str(s: string)
    | Array(items: seq<Json>)
    | Object(members: map<string, Json>)

  /** Python truth value. */
  predicate Truthy(j: Json) {
    match j
    case Null => false
    case Bool(b) => b
    case Number(n) => n != 0
    case Str(s) => s != ""
    case Array(items) => items != []
    case Object(members) => members != map[]
  }

  datatype Claim = ActorType | Tenant | Session | Permissions | Roles | Device | Location | Act

  datatype Payload = Payload(
    iss: Option<string>, sub: Option<string>, aud: Option<string>,
    iat: Option<int>, exp: Option<int>, jti: Option<string>,
    claims: map<Claim, Json>)
  {
    /** payload.get(c), where an absent claim reads as None. */
    function Get(c: Claim): Json { if c in claims then claims[c] else Null }
  }

  datatype Token = Token(key: Key, payload: Payload)

  datatype Settings = Settings(
    privateKey: Option<Key>, publicKey: Option<Key>, hasKeyId: bool, issuer: string, audience: string)

  datatype Actor = User | System | ServiceIntegration

  function ActorName(a: Actor): string {
    match a case User => "USER" case System => "SYSTEM" case ServiceIntegration => "SERVICE_INTEGRATION"
  }

  function ActorNamed(name: string): Option<Actor> {
    if name == ActorName(User) then Some(User)
    else if name == ActorName(System) then Some(System)
    else if name == ActorName(ServiceIntegration) then Some(ServiceIntegration)
    else None
  }

  lemma ActorNamesAreDistinct(a: Actor)
    ensures ActorNamed(ActorName(a)) == Some(a)
  {
    assert |ActorName(User)| != |ActorName(System)| && |ActorName(System)| != |ActorName(ServiceIntegration)|;
  }

  /** AccessTokenClaims; an absent optional string and an empty one are told apart as the code does. */
  datatype AccessTokenClaims = AccessTokenClaims(
    principal: string, actor: Actor, tenant: string, session: string, permissions: seq<string>, expiresAt: Time,
    roles: seq<string>, device: Option<string>, location: Option<string>,
    delegatedActor: Option<string>, subject: Option<string>)

  datatype Failure =
    | SigningKeyUnavailable | AuthTokenInvalid | AuthTokenExpired
    | MachineCredentialInvalid | MachineCredentialExpired | PrincipalNotActive | ActorTypeNotAllowed
    | TenantOffboarding | TenantNotActive | PrincipalTenantScopeRequired | PermissionDenied
    | ValueError | TypeError | DatabaseError

  // ---------------------------------------------------------------------------------------------
  // Issue
  // ---------------------------------------------------------------------------------------------

  predicate Filled(s: Option<string>) { s.Some? && s.value != "" }

  /** _validate_actor_claim_shape raises nothing. */
  predicate WellShaped(c: AccessTokenClaims) {
    if c.actor.User? then
      Filled(c.device) && Filled(c.location) && c.roles != [] && (c.subject.Some? ==> c.subject.value == c.principal)
    else
      c.roles == [] && !Filled(c.device) && !Filled(c.location) && c.delegatedActor.None?
      && (c.subject.Some? ==> c.subject.value != "")
  }

  function Strings(values: seq<string>): Json {
    Array(seq(|values|, i requires 0 <= i < |values| => Str(values[i])))
  }

  function With(claims: map<Claim, Json>, c: Claim, add: bool, value: Json): map<Claim, Json> {
    if add then claims[c := value] else claims
  }

  function ActorObject(id: string): Json { Object(map["sub" := Str(id)]) }

  function ClaimSet(c: AccessTokenClaims, permissions: seq<string>): map<Claim, Json> {
    var base := map[ActorType := Str(ActorName(c.actor)), Tenant := Str(c.tenant),
                    Session := Str(c.session), Permissions := Strings(permissions)];
    var roles := With(base, Roles, c.roles != [], Strings(c.roles));
    var device := With(roles, Device, Filled(c.device), Str(if c.device.Some? then c.device.value else ""));
    var location := With(device, Location, Filled(c.location), Str(if c.location.Some? then c.location.value else ""));
    With(location, Act, Filled(c.delegatedActor),
         ActorObject(if c.delegatedActor.Some? then c.delegatedActor.value else ""))
  }

  function Issue(g: Settings, c: AccessTokenClaims, now: Time, jti: string): Result<Token, Failure> {
    if g.privateKey.None? || !g.hasKeyId then Err(SigningKeyUnavailable)
    else if !WellShaped(c) then Err(ValueError)
    else
      match ValidatePermissions(c.permissions)
      case Err(_) => Err(ValueError)
      case Ok(permissions) =>
        Ok(Token(g.privateKey.value, Payload(
          Some(g.issuer), Some(if Filled(c.subject) then c.subject.value else c.principal), Some(g.audience),
          Some(now / SECOND), Some(c.expiresAt / SECOND), Some(jti), ClaimSet(c, permissions))))
  }

  /** TokenService.issue: the claim dictionary is built up in place. */
  method IssueToken(g: Settings, c: AccessTokenClaims, now: Time, jti: string) returns (r: Result<Token, Failure>)
    ensures r == Issue(g, c, now, jti)
  {
    if g.privateKey.None? || !g.hasKeyId {
      return Err(SigningKeyUnavailable);
    }
    if !WellShaped(c) {
      return Err(ValueError);
    }
    var validated := ValidatePermissions(c.permissions);
    if validated.Err? {
      return Err(ValueError);
    }
    var claims := map[ActorType := Str(ActorName(c.actor)), Tenant := Str(c.tenant),
                      Session := Str(c.session), Permissions := Strings(validated.value)];
    if c.roles != [] {
      claims := claims[Roles := Strings(c.roles)];
    }
    if Filled(c.device) {
      claims := claims[Device := Str(c.device.value)];
    }
    if Filled(c.location) {
      claims := claims[Location := Str(c.location.value)];
    }
    if Filled(c.delegatedActor) {
      claims := claims[Act := ActorObject(c.delegatedActor.value)];
    }
    var subject := if Filled(c.subject) then c.subject.value else c.principal;
    r := Ok(Token(g.privateKey.value, Payload(
      Some(g.issuer), Some(subject), Some(g.audience), Some(now / SECOND), Some(c.expiresAt / SECOND), Some(jti),
        claims)));
  }

  // ---------------------------------------------------------------------------------------------
  // Verify
  // ---------------------------------------------------------------------------------------------

  /** The required claims are there; PyJWT treats a null claim as missing. */
  predicate HasRequiredClaims(p: Payload) {
    && p.exp.Some? && p.iat.Some? && p.sub.Some? && p.jti.Some?
    && !p.Get(ActorType).Null? && !p.Get(Tenant).Null? && !p.Get(Session).Null? && !p.Get(Permissions).Null?
  }

  predicate ActorShapeAccepted(p: Payload) {
    && p.Get(ActorType).Str?
    && ActorNamed(p.Get(ActorType).s).Some?
    && var user := ActorNamed(p.Get(ActorType).s) == Some(User);
    && (if user then Truthy(p.Get(Device)) && Truthy(p.Get(Location)) && Truthy(p.Get(Roles))
        else !Truthy(p.Get(Device)) && !Truthy(p.Get(Location)) && !Truthy(p.Get(Roles)))
    && var act := p.Get(Act);
    && (act.Null? || (user && act.Object? && "sub" in act.members && act.members["sub"].Str?
         && act.members["sub"].s != ""))
  }

  /** Iterating the permissions claim: a list gives its items, a string its characters, an object its keys. */
  predicate PermissionsAccepted(j: Json)
    requires !j.Bool? && !j.Number? && !j.Null?
  {
    match j
    case Array(items) => forall i :: 0 <= i < |items| ==> items[i].Str? && IsCanonicalPermission(items[i].s)
    case Str(s) => s == ""
    case Object(members) => forall k :: k in members ==> IsCanonicalPermission(k)
  }

  function Verify(g: Settings, t: Token, now: Time): (r: Result<Payload, Failure>)
    ensures r.Ok? ==> r.value == t.payload
  {
    var p := t.payload;
    if g.publicKey.None? then Err(SigningKeyUnavailable)
    else if t.key != g.publicKey.value || !HasRequiredClaims(p) || p.iat.value * SECOND > now then Err(AuthTokenInvalid)
    else if p.exp.value * SECOND <= now then Err(AuthTokenExpired)
    else if p.iss != Some(g.issuer) || p.aud != Some(g.audience) || !ActorShapeAccepted(p) then Err(AuthTokenInvalid)
    else if p.Get(Permissions).Bool? || p.Get(Permissions).Number? then Err(TypeError)
    else if !PermissionsAccepted(p.Get(Permissions)) then Err(AuthTokenInvalid)
    else Ok(p)
  }

  /** Everything issue puts into a token, verify looks for. */
  lemma IssuedShape(g: Settings, c: AccessTokenClaims, now: Time, jti: string)
    requires Issue(g, c, now, jti).Ok?
    ensures var p := Issue(g, c, now, jti).value.payload;
            && HasRequiredClaims(p) && ActorShapeAccepted(p)
            && p.Get(Permissions).Array? && PermissionsAccepted(p.Get(Permissions))
            && p.iss == Some(g.issuer) && p.aud == Some(g.audience)
            && p.iat == Some(now / SECOND) && p.exp == Some(c.expiresAt / SECOND)
  {
    hide ActorName, ActorNamed, Ascending, IsCanonicalPermission;
    ActorNamesAreDistinct(c.actor);
    ActorNamesAreDistinct(User);
    var p := Issue(g, c, now, jti).value.payload;
    assert p.Get(ActorType) == Str(ActorName(c.actor));
    assert p.Get(Act).Object? ==> p.Get(Act).members["sub"] == Str(c.delegatedActor.value);
    assert p.Get(Permissions) == Strings(ValidatePermissions(c.permissions).value);
  }

  /**
   Issue and verify agree: with the matching public key an issued token is accepted unchanged at
   every later instant before its expiry, cut to the whole second, and reported as expired from then on.
   */
  lemma IssuedTokenVerifies(g: Settings, c: AccessTokenClaims, now: Time, jti: string, later: Time)
    requires Issue(g, c, now, jti).Ok? && g.publicKey == g.privateKey && now <= later
    ensures var t := Issue(g, c, now, jti).value;
            Verify(g, t, later) == if later < c.expiresAt / SECOND * SECOND
              then Ok(t.payload) else Err(AuthTokenExpired)
  {
    hide HasRequiredClaims, ActorShapeAccepted, PermissionsAccepted, WellShaped, ClaimSet, ValidatePermissions;
    IssuedShape(g, c, now, jti);
    assert now / SECOND * SECOND <= now;
  }

  // ---------------------------------------------------------------------------------------------
  // Token exchange
  // ---------------------------------------------------------------------------------------------

  datatype TenantStatus = TenantActive | Offboarding | Offboarded | TenantOther
  datatype CredentialStatus = CredentialActive | CredentialExpired | CredentialOther

  /** A principal_credentials row joined with its principal; `verifier` is secret_hash stripped and lowered. */
  datatype Credential = Credential(
    id: int, principal: int, principalActive: bool, actor: string, status: CredentialStatus,
    from: Time, to: Option<Time>, verifier: string)

  datatype Scope = Scope(principal: int, tenant: string, active: bool, from: Option<Time>, to: Option<Time>)

  /** What the other tables hold when the call reads them. */
  datatype Machines = Machines(
    credentials: map<string, Credential>, tenants: map<string, TenantStatus>, scopes: seq<Scope>,
    grants: set<(int, string, string)>, activePermissions: set<string>)

  predicate InScope(s: Scope, principal: int, tenant: string, now: Time) {
    && s.principal == principal && s.tenant == tenant && s.active
    && (s.from.Some? ==> s.from.value <= now) && (s.to.Some? ==> now < s.to.value)
  }

  /** machine_permissions; None is PRINCIPAL_TENANT_SCOPE_REQUIRED. */
  function Grants(m: Machines, principal: int, tenant: string, now: Time): Option<set<string>> {
    if !exists i :: 0 <= i < |m.scopes| && InScope(m.scopes[i], principal, tenant, now) then None
    else Some(set p | p in m.activePermissions && (principal, tenant, p) in m.grants)
  }

  predicate IsHex(s: string) {
    forall i :: 0 <= i < |s| ==> '0' <= s[i] <= '9' || 'a' <= s[i] <= 'f'
  }

  function Authenticate(m: Machines, sha: string -> string, client: string, secret: string, now: Time):
      (r: Result<Credential, Failure>)
    ensures r.Ok? ==> client in m.credentials && r.value == m.credentials[client]
  {
    if client !in m.credentials then Err(MachineCredentialInvalid)
    else
      var c := m.credentials[client];
      if !c.principalActive then Err(PrincipalNotActive)
      else if ActorNamed(c.actor).None? || ActorNamed(c.actor) == Some(User) then Err(ActorTypeNotAllowed)
      else if c.status.CredentialExpired? || (c.to.Some? && c.to.value <= now) then Err(MachineCredentialExpired)
      else if !c.status.CredentialActive? || now < c.from then Err(MachineCredentialInvalid)
      else if |c.verifier| != 64 || !IsHex(c.verifier) || c.verifier != sha(secret) then Err(MachineCredentialInvalid)
      else Ok(c)
  }

  function NonEmpty(values: seq<string>): (r: seq<string>)
    ensures forall v :: v in r <==> v in values && v != ""
  {
    if values == [] then []
    else if values[0] == "" then NonEmpty(values[1..])
    else [values[0]] + NonEmpty(values[1..])
  }

  /** _requested_permissions */
  function Requested(values: seq<string>): (r: Result<seq<string>, Failure>)
    ensures r.Ok? ==> Ascending(r.value) && r.value != [] && AllCanonical(r.value)
  {
    if NonEmpty(values) == [] then Err(PermissionDenied)
    else
      match ValidatePermissions(NonEmpty(values))
      case Err(_) => Err(ValueError)
      case Ok(list) => assert NonEmpty(values)[0] in list; Ok(list)
  }

  predicate AllStrings(j: Json) {
    j.Array? && forall i :: 0 <= i < |j.items| ==> j.items[i].Str?
  }

  function Texts(j: Json): (r: seq<string>)
    requires AllStrings(j)
    ensures Strings(r) == j
  {
    var r := seq(|j.items|, i requires 0 <= i < |j.items| => j.items[i].s);
    assert Strings(r).items == j.items;
    r
  }

  predicate FilledString(j: Json) { j.Str? && j.s != "" }

  /** The isinstance tests on the subject token's claims. */
  predicate ExchangeableClaims(p: Payload) {
    && Filled(p.sub) && FilledString(p.Get(Tenant)) && FilledString(p.Get(Session)) && AllStrings(p.Get(Roles))
    && FilledString(p.Get(Device)) && FilledString(p.Get(Location)) && AllStrings(p.Get(Permissions)) && p.exp.Some?
  }

  datatype Exchanged = Exchanged(token: Token, expiresAt: Time, permissions: seq<string>)

  datatype Request = Request(
    machines: Machines, client: string, secret: string, requested: seq<string>, now: Time, jti: string)

  function ExchangeClaims(p: Payload, client: string, requested: seq<string>): AccessTokenClaims
    requires ExchangeableClaims(p)
  {
    AccessTokenClaims(p.sub.value, User, p.Get(Tenant).s, p.Get(Session).s, requested, p.exp.value * SECOND,
                      Texts(p.Get(Roles)), Some(p.Get(Device).s), Some(p.Get(Location).s), Some(client), None)
  }

  /** exchange_user_token up to the commit. */
  function Exchange(g: Settings, sha: string -> string, q: Request, subject: Token): Result<Exchanged, Failure> {
    match Authenticate(q.machines, sha, q.client, q.secret, q.now)
    case Err(e) => Err(e)
    case Ok(credential) =>
      match Verify(g, subject, q.now)
      case Err(e) => Err(e)
      case Ok(p) =>
        if p.Get(ActorType) != Str(ActorName(User)) || !ExchangeableClaims(p) then Err(AuthTokenInvalid)
        else
          var tenant := p.Get(Tenant).s;
          var status := if tenant in q.machines.tenants then q.machines.tenants[tenant] else TenantOther;
          if status.Offboarding? || status.Offboarded? then Err(TenantOffboarding)
          else if !status.TenantActive? then Err(TenantNotActive)
          else
            match Grants(q.machines, credential.principal, tenant, q.now)
            case None => Err(PrincipalTenantScopeRequired)
            case Some(granted) =>
              var held := Texts(p.Get(Permissions));
              if ValidatePermissions(held).Err? then Err(ValueError)
              else
                match Requested(q.requested)
                case Err(e) => Err(e)
                case Ok(requested) =>
                  if exists v :: v in requested && (v !in granted || v !in held) then Err(PermissionDenied)
                  else
                    match Issue(g, ExchangeClaims(p, q.client, requested), q.now, q.jti)
                    case Err(e) => Err(e)
                    case Ok(token) => Ok(Exchanged(token, p.exp.value * SECOND, requested))
  }

  function PermissionSet(t: Token): set<string> {
    var j := t.payload.Get(Permissions);
    if j.Array? then set i | 0 <= i < |j.items| && j.items[i].Str? :: j.items[i].s else {}
  }

  /** What the client of a request was granted for the tenant of a token at the instant of the request. */
  function ClientGrants(q: Request, t: Token): set<string> {
    if q.client !in q.machines.credentials || !t.payload.Get(Tenant).Str? then {}
    else
      match Grants(q.machines, q.machines.credentials[q.client].principal, t.payload.Get(Tenant).s, q.now)
      case None => {}
      case Some(granted) => granted
  }

  /** Everything that names who, where and until when, and not what may be done or by whom. */
  predicate SameSubject(a: Token, b: Token) {
    && a.payload.sub == b.payload.sub && a.payload.exp == b.payload.exp
    && a.payload.Get(ActorType) == b.payload.Get(ActorType)
    && a.payload.Get(Tenant) == b.payload.Get(Tenant) && a.payload.Get(Session) == b.payload.Get(Session)
    && a.payload.Get(Roles) == b.payload.Get(Roles)
    && a.payload.Get(Device) == b.payload.Get(Device) && a.payload.Get(Location) == b.payload.Get(Location)
  }

  lemma PermissionSetOfStrings(t: Token, values: seq<string>)
    requires t.payload.Get(Permissions) == Strings(values)
    ensures PermissionSet(t) == set v | v in values
  {
    forall v | v in values ensures v in PermissionSet(t) {
      var i :| 0 <= i < |values| && values[i] == v;
      assert t.payload.Get(Permissions).items[i] == Str(v);
    }
  }

  /** What a successful exchange has checked, and the claims it signed. */
  lemma ExchangeChecked(g: Settings, sha: string -> string, q: Request, subject: Token)
    requires Exchange(g, sha, q, subject).Ok?
    ensures var x := Exchange(g, sha, q, subject).value;
            var p := subject.payload;
            && ExchangeableClaims(p) && p.Get(ActorType) == Str(ActorName(User))
            && (forall v :: v in x.permissions ==> v in Texts(p.Get(Permissions)) && v in ClientGrants(q, subject))
            && Requested(q.requested) == Ok(x.permissions)
            && Issue(g, ExchangeClaims(p, q.client, x.permissions), q.now, q.jti) == Ok(x.token)
  {
    hide Issue, ExchangeClaims, Requested, Texts, Verify, Authenticate, Grants, ValidatePermissions, Ascending;
  }

  /** Signing the claims of an exchange reproduces every claim of the subject but the permissions and the actor. */
  lemma ReissueKeepsSubject(g: Settings, q: Request, subject: Token, permissions: seq<string>, t: Token)
    requires ExchangeableClaims(subject.payload) && subject.payload.Get(ActorType) == Str(ActorName(User))
    requires Ascending(permissions) && AllCanonical(permissions)
    requires Issue(g, ExchangeClaims(subject.payload, q.client, permissions), q.now, q.jti) == Ok(t)
    ensures SameSubject(subject, t)
    ensures t.payload.Get(Permissions) == Strings(permissions)
    ensures t.payload.Get(Act) == if q.client != "" then ActorObject(q.client) else Null
  {
    hide Ascending, AllCanonical, Strings, ActorName, AllStrings;
    ValidatedListIsStable(permissions);
    assert subject.payload.exp.value * SECOND / SECOND == subject.payload.exp.value;
  }

  /**
   One exchange narrows the permissions to both sides, prints as scope exactly what it signed, and
   changes nothing else but the actor.
   */
  lemma ExchangeAttenuates(g: Settings, sha: string -> string, q: Request, subject: Token)
    requires Exchange(g, sha, q, subject).Ok?
    ensures var t := Exchange(g, sha, q, subject).value.token;
            && SameSubject(subject, t)
            && PermissionSet(t) <= PermissionSet(subject)
            && PermissionSet(t) <= ClientGrants(q, subject)
            && t.payload.Get(Act) == if q.client != "" then ActorObject(q.client) else Null
    ensures var x := Exchange(g, sha, q, subject).value;
            PermissionSet(x.token) == (set v | v in x.permissions) && Words(Join(x.permissions, ' ')) == x.permissions
  {
    hide Exchange, Issue, ClientGrants, SameSubject, PermissionSet, ExchangeClaims, Strings, Ascending, Join, Words;
    ExchangeChecked(g, sha, q, subject);
    var x := Exchange(g, sha, q, subject).value;
    var held := Texts(subject.payload.Get(Permissions));
    ReissueKeepsSubject(g, q, subject, x.permissions, x.token);
    PermissionSetOfStrings(x.token, x.permissions);
    PermissionSetOfStrings(subject, held);
    ValidatedListIsStable(x.permissions);
    ScopeRoundTrip(x.permissions);
  }

  /** A USER token for one permission p, obtained through the client "m". */
  function SampleClaims(p: string): AccessTokenClaims {
    AccessTokenClaims("u", User, "t", "s", [p], SECOND, ["r"], Some("d"), Some("l"), Some("m"), None)
  }

  function SampleSettings(): Settings { Settings(Some(1), Some(1), true, "i", "a") }

  function SampleVerifier(): string { seq(64, i => 'a') }

  /** A machine with an empty client id that holds p for the tenant. */
  function NamelessClient(p: string): Request {
    var credential := Credential(1, 7, true, ActorName(System), CredentialActive, 0, None, SampleVerifier());
    Request(Machines(map["" := credential], map["t" := TenantActive], [Scope(7, "t", true, None, None)],
                     {(7, "t", p)}, {p}),
            "", "", [p], 0, "k")
  }

  lemma OnePermission(p: string)
    requires IsCanonicalPermission(p)
    ensures ValidatePermissions([p]) == Ok([p]) && NonEmpty([p]) == [p] && Requested([p]) == Ok([p])
  {
    CanonicalPermissionIsWord(p);
    ValidatedListIsStable([p]);
    assert [p][1..] == [];
  }

  lemma NamelessAuthenticates(p: string)
    ensures var q := NamelessClient(p);
            && Authenticate(q.machines, s => SampleVerifier(), q.client, q.secret, q.now).Ok?
            && Grants(q.machines, 7, "t", 0) == Some({p})
  {
    ActorNamesAreDistinct(System);
    var q := NamelessClient(p);
    assert InScope(q.machines.scopes[0], 7, "t", 0);
    assert (set x | x in q.machines.activePermissions && (7, "t", x) in q.machines.grants) == {p};
  }

  lemma SampleIsExchangeable(p: string)
    requires IsCanonicalPermission(p)
    ensures Issue(SampleSettings(), SampleClaims(p), 0, "j").Ok?
    ensures var subject := Issue(SampleSettings(), SampleClaims(p), 0, "j").value;
            && subject.key == 1 && Verify(SampleSettings(), subject, 0) == Ok(subject.payload)
            && ExchangeableClaims(subject.payload) && subject.payload.Get(ActorType) == Str(ActorName(User))
            && subject.payload.Get(Tenant) == Str("t") && Texts(subject.payload.Get(Permissions)) == [p]
            && subject.payload.Get(Act) == ActorObject("m")
  {
    OnePermission(p);
    IssuedTokenVerifies(SampleSettings(), SampleClaims(p), 0, "j", 0);
    hide ValidatePermissions, ActorName, Verify;
  }

  /** An input: a client with an empty id exchanges a token, and the actor it named is gone. */
  lemma NamelessClientDropsActor(p: string) returns (g: Settings, sha: string -> string, q: Request, subject: Token)
    requires IsCanonicalPermission(p)
    ensures Exchange(g, sha, q, subject).Ok? && q.client == ""
    ensures subject.payload.Get(Act) == ActorObject("m")
    ensures Exchange(g, sha, q, subject).value.token.payload.Get(Act) == Null
  {
    g, q, sha := SampleSettings(), NamelessClient(p), s => SampleVerifier();
    OnePermission(p);
    SampleIsExchangeable(p);
    subject := Issue(g, SampleClaims(p), 0, "j").value;
    NamelessAuthenticates(p);
    assert subject == Token(g.publicKey.value, subject.payload);
    hide Issue, Verify, Authenticate, Requested, ValidatePermissions, NonEmpty, ExchangeClaims, ActorName;
    hide SampleClaims, ExchangeableClaims, Grants, ActorObject, SampleVerifier;
    ExchangeNeverTripsIssue(g, subject.payload, q, [p]);
    ExchangeAttenuates(g, sha, q, subject);
  }

  /** Only USER tokens can be exchanged, whatever the client. */
  lemma MachineTokenIsNotExchangeable(g: Settings, sha: string -> string, q: Request, subject: Token,
      c: AccessTokenClaims, at: Time, jti: string)
    requires Issue(g, c, at, jti) == Ok(subject) && !c.actor.User?
    ensures Exchange(g, sha, q, subject).Err?
  {
    ActorNamesAreDistinct(c.actor);
    ActorNamesAreDistinct(User);
  }

  /**
   Once the requested permissions are allowed, signing cannot fail for a value error: verify and issue ask the
   same.
   */
  lemma ExchangeNeverTripsIssue(g: Settings, p: Payload, q: Request, requested: seq<string>)
    requires g.publicKey.Some? && Verify(g, Token(g.publicKey.value, p), q.now).Ok?
    requires p.Get(ActorType) == Str(ActorName(User)) && ExchangeableClaims(p)
             && Requested(q.requested) == Ok(requested)
    ensures Issue(g, ExchangeClaims(p, q.client, requested), q.now, q.jti).Ok? <==> g.privateKey.Some? && g.hasKeyId
  {
    ActorNamesAreDistinct(User);
    assert Texts(p.Get(Roles)) != [] by {
      assert Truthy(p.Get(Roles));
      assert |Strings(Texts(p.Get(Roles))).items| == |Texts(p.Get(Roles))|;
    }
  }

  // ---------------------------------------------------------------------------------------------
  // Chains of exchanges
  // ---------------------------------------------------------------------------------------------

  /** tokens[k + 1] was obtained by requests[k] in exchange for tokens[k]. */
  ghost predicate Chain(g: Settings, sha: string -> string, tokens: seq<Token>, requests: seq<Request>) {
    && |tokens| == |requests| + 1
    && forall k :: 0 <= k < |requests| ==>
         Exchange(g, sha, requests[k], tokens[k]).Ok?
           && Exchange(g, sha, requests[k], tokens[k]).value.token == tokens[k + 1]
  }

  /**
   Along any chain of exchanges, by any clients at any times: permissions stay within those of every
   earlier token and of every client that took part, the subject, session, roles, device, location
   and expiry never change, and `act` names the latest client (section 4.1 of RFC 8693).
   */
  lemma {:induction false} ChainAttenuates(g: Settings, sha: string -> string, tokens: seq<Token>,
      requests: seq<Request>, i: nat, j: nat)
    requires Chain(g, sha, tokens, requests) && i <= j < |tokens|
    ensures SameSubject(tokens[i], tokens[j])
    ensures PermissionSet(tokens[j]) <= PermissionSet(tokens[i])
    ensures forall k :: i <= k < j ==> PermissionSet(tokens[j]) <= ClientGrants(requests[k], tokens[k])
    ensures i < j ==> tokens[j].payload.Get(Act) == if requests[j - 1].client != ""
            then ActorObject(requests[j - 1].client) else Null
    decreases j
  {
    hide Exchange, ClientGrants, PermissionSet;
    if i < j {
      ChainAttenuates(g, sha, tokens, requests, i, j - 1);
      ExchangeAttenuates(g, sha, requests[j - 1], tokens[j - 1]);
    }
  }

  /** No token of a chain verifies at or after the expiry of the token the chain started from. */
  lemma ChainExpiresWithItsRoot(g: Settings, sha: string -> string, tokens: seq<Token>, requests: seq<Request>,
      j: nat, now: Time)
    requires Chain(g, sha, tokens, requests) && j < |tokens|
    requires tokens[0].payload.exp.Some? && tokens[0].payload.exp.value * SECOND <= now
    ensures Verify(g, tokens[j], now).Err?
  {
    ChainAttenuates(g, sha, tokens, requests, 0, j);
  }

  // ---------------------------------------------------------------------------------------------
  // The service call
  // ---------------------------------------------------------------------------------------------

  /** The one row an exchange writes: when each credential was last used. */
  class MachineAccess {
    var lastUsed: map<int, Time>

    constructor ()
      ensures lastUsed == map[]
    {
      lastUsed := map[];
    }

    /** A failure anywhere, the commit included, leaves the table as it was and hands out no token. */
    method ExchangeUserToken(g: Settings, sha: string -> string, q: Request, subject: Token, commitFails: bool)
      returns (r: Result<Exchanged, Failure>)
      modifies this
      ensures r == if Exchange(g, sha, q, subject).Ok? && commitFails
              then Err(DatabaseError) else Exchange(g, sha, q, subject)
      ensures r.Ok? ==> q.client in q.machines.credentials
                        && lastUsed == old(lastUsed)[q.machines.credentials[q.client].id := q.now]
      ensures r.Err? ==> lastUsed == old(lastUsed)
    {
      var saved := lastUsed;
      var authenticated := Authenticate(q.machines, sha, q.client, q.secret, q.now);
      if authenticated.Err? {
        return Err(authenticated.error);
      }
      var verified := Verify(g, subject, q.now);
      if verified.Err? {
        return Err(verified.error);
      }
      var p := verified.value;
      if p.Get(ActorType) != Str(ActorName(User)) || !ExchangeableClaims(p) {
        return Err(AuthTokenInvalid);
      }
      var tenant := p.Get(Tenant).s;
      var status := if tenant in q.machines.tenants then q.machines.tenants[tenant] else TenantOther;
      if status.Offboarding? || status.Offboarded? {
        return Err(TenantOffboarding);
      }
      if !status.TenantActive? {
        return Err(TenantNotActive);
      }
      var granted := Grants(q.machines, authenticated.value.principal, tenant, q.now);
      if granted.None? {
        return Err(PrincipalTenantScopeRequired);
      }
      var held := Texts(p.Get(Permissions));
      if ValidatePermissions(held).Err? {
        return Err(ValueError);
      }
      var requested := Requested(q.requested);
      if requested.Err? {
        return Err(requested.error);
      }
      if exists v :: v in requested.value && (v !in granted.value || v !in held) {
        return Err(PermissionDenied);
      }
      var issued := IssueToken(g, ExchangeClaims(p, q.client, requested.value), q.now, q.jti);
      if issued.Err? {
        return Err(issued.error);
      }
      lastUsed := lastUsed[authenticated.value.id := q.now];
      if commitFails {
        lastUsed := saved;
        return Err(DatabaseError);
      }
      return Ok(Exchanged(issued.value, p.exp.value * SECOND, requested.value));
    }
  }
}
