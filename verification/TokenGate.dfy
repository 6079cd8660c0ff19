/**
 What a token and its exchange depend on, column by column: when a token is accepted, when a client may
 exchange one, and what the new token then says.
 */
module TokenGate {
  import opened Options
  import opened Text
  import opened Tokens

  // ---------------------------------------------------------------------------------------------
  // Accepting a token
  // ---------------------------------------------------------------------------------------------

  predicate FilledText(j: Json) { j.Str? && j.s != "" }

  predicate TextList(j: Json) { j.Array? && forall i :: 0 <= i < |j.items| ==> j.items[i].Str? }

  /** Signed with our key, for us, in its time, with the registered claims. */
  predicate RegisteredInForce(g: Settings, t: Token, now: Time) {
    var p := t.payload;
    && g.publicKey == Some(t.key) && p.iss == Some(g.issuer) && p.aud == Some(g.audience)
    && p.sub.Some? && p.jti.Some?
    && p.iat.Some? && p.iat.value * SECOND <= now
    && p.exp.Some? && now < p.exp.value * SECOND
  }

  /** No `act` claim, or one that names somebody. */
  predicate ActorNamedOrAbsent(j: Json) {
    j.Null? || (j.Object? && "sub" in j.members && FilledText(j.members["sub"]))
  }

  /** A list of canonical permissions; the code also accepts an empty string and an object whose keys are such. */
  predicate PermissionsListed(j: Json) {
    || (TextList(j) && forall i :: 0 <= i < |j.items| ==> IsCanonicalPermission(j.items[i].s))
    || j == Str("")
    || (j.Object? && forall k :: k in j.members ==> IsCanonicalPermission(k))
  }

  predicate UserShape(p: Payload) {
    && p.Get(ActorType) == Str("USER")
    && Truthy(p.Get(Device)) && Truthy(p.Get(Location)) && Truthy(p.Get(Roles))
    && ActorNamedOrAbsent(p.Get(Act))
  }

  predicate MachineShape(p: Payload) {
    && (p.Get(ActorType) == Str("SYSTEM") || p.Get(ActorType) == Str("SERVICE_INTEGRATION"))
    && !Truthy(p.Get(Device)) && !Truthy(p.Get(Location)) && !Truthy(p.Get(Roles)) && p.Get(Act).Null?
  }

  lemma NamesByLength()
    ensures |"USER"| == 4 && |"SYSTEM"| == 6 && |"SERVICE_INTEGRATION"| == 19
  {}

  /** What verify accepts, whoever made the token. */
  lemma VerifiesExactlyWhen(g: Settings, t: Token, now: Time)
    ensures Verify(g, t, now).Ok? <==>
              && RegisteredInForce(g, t, now)
              && !t.payload.Get(Tenant).Null? && !t.payload.Get(Session).Null?
              && (UserShape(t.payload) || MachineShape(t.payload))
              && PermissionsListed(t.payload.Get(Permissions))
  {
    NamesByLength();
    hide Truthy, IsCanonicalPermission;
    var p := t.payload;
    PermissionsExactlyWhen(p.Get(Permissions));
    ShapeExactlyWhen(p);
    hide ActorShapeAccepted, PermissionsAccepted, PermissionsListed, UserShape, MachineShape;
    assert ActorShapeAccepted(p) ==> !p.Get(ActorType).Null?;
  }

  lemma PermissionsExactlyWhen(j: Json)
    ensures PermissionsListed(j) <==> !j.Null? && !j.Bool? && !j.Number? && PermissionsAccepted(j)
  {
    hide IsCanonicalPermission;
  }

  lemma ShapeExactlyWhen(p: Payload)
    ensures ActorShapeAccepted(p) <==> UserShape(p) || MachineShape(p)
    ensures ActorShapeAccepted(p) ==> p.Get(ActorType).Str?
  {
    NamesByLength();
    hide Truthy;
  }

  // ---------------------------------------------------------------------------------------------
  // Exchanging one
  // ---------------------------------------------------------------------------------------------

  /** The client is an ACTIVE machine that presented the secret of its credential, which is in force. */
  predicate PresentsItsSecret(q: Request, sha: string -> string) {
    && q.client in q.machines.credentials
    && var c := q.machines.credentials[q.client];
    && c.principalActive && (c.actor == "SYSTEM" || c.actor == "SERVICE_INTEGRATION")
    && c.status == CredentialActive && c.from <= q.now && (c.to.Some? ==> q.now < c.to.value)
    && |c.verifier| == 64
    && (forall i :: 0 <= i < 64 ==> '0' <= c.verifier[i] <= '9' || 'a' <= c.verifier[i] <= 'f')
    && c.verifier == sha(q.secret)
  }

  /** A USER token with everything that is copied from it. */
  predicate IsUserToken(p: Payload) {
    && p.Get(ActorType) == Str("USER") && Filled(p.sub)
    && FilledText(p.Get(Tenant)) && FilledText(p.Get(Session))
    && FilledText(p.Get(Device)) && FilledText(p.Get(Location))
    && TextList(p.Get(Roles)) && p.Get(Roles).items != []
    && TextList(p.Get(Permissions))
    && (forall i :: 0 <= i < |p.Get(Permissions).items| ==> IsCanonicalPermission(p.Get(Permissions).items[i].s))
    && ActorNamedOrAbsent(p.Get(Act))
  }

  /** The machine may act in the token's tenant, which is ACTIVE. */
  predicate ActsInTenant(q: Request, p: Payload)
    requires q.client in q.machines.credentials && p.Get(Tenant).Str?
  {
    var m, tenant := q.machines, p.Get(Tenant).s;
    && tenant in m.tenants && m.tenants[tenant] == TenantActive
    && exists i :: 0 <= i < |m.scopes|
         && m.scopes[i].principal == m.credentials[q.client].principal && m.scopes[i].tenant == tenant
         && m.scopes[i].active
         && (m.scopes[i].from.Some? ==> m.scopes[i].from.value <= q.now)
         && (m.scopes[i].to.Some? ==> q.now < m.scopes[i].to.value)
  }

  /** v is an ACTIVE permission of the machine in the token's tenant, and one of the token's. */
  predicate BothHold(q: Request, p: Payload, v: string)
    requires q.client in q.machines.credentials && p.Get(Tenant).Str? && p.Get(Permissions).Array?
  {
    && v in q.machines.activePermissions
    && (q.machines.credentials[q.client].principal, p.Get(Tenant).s, v) in q.machines.grants
    && Str(v) in p.Get(Permissions).items
  }

  /** Something is asked for; empty strings do not count. */
  predicate AsksWithinBoth(q: Request, p: Payload)
    requires q.client in q.machines.credentials && p.Get(Tenant).Str? && p.Get(Permissions).Array?
  {
    && (exists v :: v in q.requested && v != "")
    && (forall v :: v in q.requested && v != "" ==> BothHold(q, p, v))
  }

  predicate MayExchange(g: Settings, sha: string -> string, q: Request, t: Token) {
    && PresentsItsSecret(q, sha)
    && RegisteredInForce(g, t, q.now) && IsUserToken(t.payload)
    && ActsInTenant(q, t.payload) && AsksWithinBoth(q, t.payload)
    && g.privateKey.Some? && g.hasKeyId
  }

  lemma AuthenticatesExactlyWhen(q: Request, sha: string -> string)
    ensures Authenticate(q.machines, sha, q.client, q.secret, q.now).Ok? <==> PresentsItsSecret(q, sha)
  {
    NamesByLength();
  }

  lemma UserTokenExactlyWhen(g: Settings, t: Token, now: Time)
    ensures RegisteredInForce(g, t, now) && IsUserToken(t.payload) <==>
              Verify(g, t, now).Ok? && t.payload.Get(ActorType) == Str(ActorName(User)) && ExchangeableClaims(t.payload)
  {
    VerifiesExactlyWhen(g, t, now);
    hide Verify, IsCanonicalPermission;
    NamesByLength();
  }

  lemma ActsExactlyWhen(q: Request, p: Payload)
    requires q.client in q.machines.credentials && p.Get(Tenant).Str?
    ensures var m, tenant := q.machines, p.Get(Tenant).s;
            ActsInTenant(q, p) <==>
              tenant in m.tenants && m.tenants[tenant].TenantActive?
              && Grants(m, m.credentials[q.client].principal, tenant, q.now).Some?
  {}

  /** The list a request asks for. */
  lemma RequestedExactlyWhen(values: seq<string>)
    ensures Requested(values).Ok? <==>
              && (exists v :: v in values && v != "")
              && forall v :: v in values && v != "" ==> IsCanonicalPermission(v)
    ensures Requested(values).Ok? ==> forall v :: v in Requested(values).value <==> v in values && v != ""
  {
    hide IsCanonicalPermission, Ascending;
    var r := NonEmpty(values);
    if v :| v in values && v != "" {
      assert v in r;
    }
    if r != [] {
      assert r[0] in r;
    }
  }

  lemma HeldTexts(j: Json, v: string)
    requires AllStrings(j)
    ensures v in Texts(j) <==> Str(v) in j.items
  {
    var texts := Texts(j);
    assert Strings(texts).items == j.items && |texts| == |j.items|;
    forall i | 0 <= i < |texts| ensures j.items[i] == Str(texts[i]) {
      assert Strings(texts).items[i] == Str(texts[i]);
    }
    if v in texts {
      var i :| 0 <= i < |texts| && texts[i] == v;
      assert j.items[i] == Str(v);
    }
    if Str(v) in j.items {
      var i :| 0 <= i < |j.items| && j.items[i] == Str(v);
      assert texts[i] == v;
    }
  }

  lemma HeldAreCanonical(j: Json)
    requires TextList(j) && forall i :: 0 <= i < |j.items| ==> IsCanonicalPermission(j.items[i].s)
    ensures ValidatePermissions(Texts(j)).Ok?
    ensures forall v :: Str(v) in j.items ==> IsCanonicalPermission(v)
  {
    forall v | v in Texts(j) ensures IsCanonicalPermission(v) {
      HeldTexts(j, v);
    }
  }

  lemma AsksExactlyWhen(q: Request, p: Payload)
    requires q.client in q.machines.credentials && IsUserToken(p) && ActsInTenant(q, p)
    ensures var granted := Grants(q.machines, q.machines.credentials[q.client].principal, p.Get(Tenant).s, q.now);
            AsksWithinBoth(q, p) <==>
              && Requested(q.requested).Ok? && granted.Some?
              && forall v :: v in Requested(q.requested).value ==> v in granted.value && v in Texts(p.Get(Permissions))
  {
    ActsExactlyWhen(q, p);
    RequestedExactlyWhen(q.requested);
    HeldAreCanonical(p.Get(Permissions));
    forall v ensures v in Texts(p.Get(Permissions)) <==> Str(v) in p.Get(Permissions).items {
      HeldTexts(p.Get(Permissions), v);
    }
    hide Requested, Texts, IsCanonicalPermission, ActsInTenant;
  }

  lemma PresentsKnown(q: Request, sha: string -> string)
    ensures PresentsItsSecret(q, sha) ==> q.client in q.machines.credentials
  {}

  /**
   An exchange succeeds exactly for a machine that presents its secret, with an accepted USER token of an
   ACTIVE tenant it may act in, asking for permissions both sides hold.
   */
  lemma ExchangesExactlyWhen(g: Settings, sha: string -> string, q: Request, t: Token)
    ensures Exchange(g, sha, q, t).Ok? <==> MayExchange(g, sha, q, t)
  {
    hide Authenticate, Verify, Issue, ExchangeClaims, Texts, Grants, ValidatePermissions, PresentsItsSecret, Truthy;
    hide ActorName, IsCanonicalPermission;
    AuthenticatesExactlyWhen(q, sha);
    UserTokenExactlyWhen(g, t, q.now);
    var p := t.payload;
    PresentsKnown(q, sha);
    assert RegisteredInForce(g, t, q.now) ==> g.publicKey == Some(t.key) && t == Token(t.key, p);
    hide RegisteredInForce;
    if PresentsItsSecret(q, sha) && RegisteredInForce(g, t, q.now) && IsUserToken(p) {
      ActsExactlyWhen(q, p);
      HeldAreCanonical(p.Get(Permissions));
      if ActsInTenant(q, p) {
        AsksExactlyWhen(q, p);
        if AsksWithinBoth(q, p) {
          ExchangeNeverTripsIssue(g, p, q, Requested(q.requested).value);
        }
      }
    }
    hide Requested, IsUserToken, ActsInTenant, AsksWithinBoth, ExchangeableClaims;
  }

  /**
   The new token says what was asked for, under our name and until the subject's own expiry: it is accepted
   from now until then, and by nobody afterwards.
   */
  lemma ExchangedTokenSays(g: Settings, sha: string -> string, q: Request, t: Token, later: Time)
    requires MayExchange(g, sha, q, t) && g.privateKey == g.publicKey && q.now <= later
    ensures Exchange(g, sha, q, t).Ok?
    ensures var x := Exchange(g, sha, q, t).value;
            && (forall v :: v in PermissionSet(x.token) <==> v in q.requested && v != "")
            && x.token.payload.jti == Some(q.jti) && x.token.payload.iat == Some(q.now / SECOND)
            && x.expiresAt == t.payload.exp.value * SECOND
            && (Verify(g, x.token, later).Ok? <==> later < x.expiresAt)
  {
    ExchangesExactlyWhen(g, sha, q, t);
    ExchangeChecked(g, sha, q, t);
    ExchangeAttenuates(g, sha, q, t);
    RequestedExactlyWhen(q.requested);
    ExchangeExpiry(g, sha, q, t);
    var x := Exchange(g, sha, q, t).value;
    IssuedTokenVerifies(g, ExchangeClaims(t.payload, q.client, x.permissions), q.now, q.jti, later);
    IssuedNumbers(g, ExchangeClaims(t.payload, q.client, x.permissions), q.now, q.jti);
    hide Exchange, Verify, Issue, Requested, PermissionSet, MayExchange, Texts, SameSubject, ClientGrants;
  }

  lemma ExchangeExpiry(g: Settings, sha: string -> string, q: Request, t: Token)
    requires Exchange(g, sha, q, t).Ok? && t.payload.exp.Some?
    ensures Exchange(g, sha, q, t).value.expiresAt == t.payload.exp.value * SECOND
  {
    hide Authenticate, Verify, Issue, ExchangeClaims, Requested, Texts, Grants, ValidatePermissions;
  }

  lemma IssuedNumbers(g: Settings, c: AccessTokenClaims, now: Time, jti: string)
    requires Issue(g, c, now, jti).Ok?
    ensures var p := Issue(g, c, now, jti).value.payload; p.jti == Some(jti) && p.iat == Some(now / SECOND)
  {
    hide ClaimSet, ValidatePermissions;
  }

  // ---------------------------------------------------------------------------------------------
  // Issuing one
  // ---------------------------------------------------------------------------------------------

  function OrEmpty(text: Option<string>): string { if text.Some? then text.value else "" }

  /** What a USER token needs, and what a machine's may not carry. */
  predicate ClaimsFitActor(c: AccessTokenClaims) {
    if c.actor == User then
      && OrEmpty(c.device) != "" && OrEmpty(c.location) != "" && |c.roles| > 0
      && (c.subject == None || c.subject == Some(c.principal))
    else
      && OrEmpty(c.device) == "" && OrEmpty(c.location) == "" && |c.roles| == 0
      && c.delegatedActor == None && c.subject != Some("")
  }

  lemma IssuesExactlyWhen(g: Settings, c: AccessTokenClaims, now: Time, jti: string)
    ensures Issue(g, c, now, jti).Ok? <==>
              && g.privateKey.Some? && g.hasKeyId && ClaimsFitActor(c)
              && forall v :: v in c.permissions ==> IsCanonicalPermission(v)
  {
    hide IsCanonicalPermission, ClaimSet;
  }

  /** What was put into a token can be read back from it. */
  lemma IssuedTokenReadsBack(g: Settings, c: AccessTokenClaims, now: Time, jti: string)
    requires Issue(g, c, now, jti).Ok?
    ensures var p := Issue(g, c, now, jti).value.payload;
            && p.sub == Some(if OrEmpty(c.subject) == "" then c.principal else c.subject.value) && p.jti == Some(jti)
            && p.Get(ActorType) == Str(ActorName(c.actor))
            && p.Get(Tenant) == Str(c.tenant) && p.Get(Session) == Str(c.session)
            && PermissionSet(Issue(g, c, now, jti).value) == set v | v in c.permissions
            && p.Get(Roles) == (if c.roles == [] then Null else Strings(c.roles))
            && p.Get(Device) == (if OrEmpty(c.device) == "" then Null else Str(c.device.value))
            && p.Get(Location) == (if OrEmpty(c.location) == "" then Null else Str(c.location.value))
            && p.Get(Act) == (if OrEmpty(c.delegatedActor) == "" then Null else ActorObject(c.delegatedActor.value))
  {
    var permissions := ValidatePermissions(c.permissions).value;
    ClaimsReadBack(c, permissions);
    IssuedNumbers(g, c, now, jti);
    assert Issue(g, c, now, jti).value.payload.claims == ClaimSet(c, permissions) by {
      hide ClaimSet, ValidatePermissions, WellShaped;
    }
    PermissionSetOfStrings(Issue(g, c, now, jti).value, permissions);
    hide ActorName, Strings, ValidatePermissions, PermissionSet, ClaimSet, WellShaped, ActorObject;
  }

  lemma ClaimsReadBack(c: AccessTokenClaims, permissions: seq<string>)
    ensures var p := Payload(None, None, None, None, None, None, ClaimSet(c, permissions));
            && p.Get(ActorType) == Str(ActorName(c.actor))
            && p.Get(Tenant) == Str(c.tenant) && p.Get(Session) == Str(c.session)
            && p.Get(Permissions) == Strings(permissions)
            && p.Get(Roles) == (if c.roles == [] then Null else Strings(c.roles))
            && p.Get(Device) == (if OrEmpty(c.device) == "" then Null else Str(c.device.value))
            && p.Get(Location) == (if OrEmpty(c.location) == "" then Null else Str(c.location.value))
            && p.Get(Act) == (if OrEmpty(c.delegatedActor) == "" then Null else ActorObject(c.delegatedActor.value))
  {
    hide ActorName, Strings, ActorObject;
  }
}
