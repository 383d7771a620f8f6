/** Who asks, for which tenant, and with what standing: said of rows and claims, and that the handlers' checks
    come to exactly that. */
module Conditions {
  import opened Prelude
  import opened Uuids
  import opened Crypto
  import opened Jwt
  import opened AdminAuth
  import opened Schema
  import opened Handlers

  // ── Bearers, cookies, administrators ───────────────────────────────────────

  /** The token is valid, its id is not on file as revoked, and it names this user of this tenant. */
  predicate BearerNames(db: Db, cfg: Config, now: Time, t: Token, account: Owner) {
    match ValidateAccess(t, cfg.keys, now)
    case None => false
    case Some(c) =>
      c.jti !in db.jtis && Parse(c.sub) == Some(account.user) && Parse(c.tid) == Some(account.tenant)
  }

  /** In a tenant's requests a token of the tenant names the user, or one of the master tenant. */
  predicate BearerIn(db: Db, cfg: Config, now: Time, t: Token, account: Owner) {
    || BearerNames(db, cfg, now, t, account)
    || (cfg.master.Some? && BearerNames(db, cfg, now, t, Owner(cfg.master.value, account.user)))
  }

  lemma AuthenticatesExactly(db: Db, cfg: Config, now: Time, ctx: Ctx, t: Token, u: Uuid)
    ensures Authenticate(db, cfg, now, ctx, t).Ok? && Subject(Authenticate(db, cfg, now, ctx, t).value) == u
            <==> BearerIn(db, cfg, now, t, Owner(ctx.tenant, u))
  {}

  /** A bearer is turned away as such if its token is not valid, or its ids are none while it is not revoked; and as
      unauthorized if it is revoked, or of a tenant that is neither this one nor the master. */
  lemma TurnedAwayExactly(db: Db, cfg: Config, now: Time, ctx: Ctx, t: Token)
    ensures var who, claims := Authenticate(db, cfg, now, ctx, t), ValidateAccess(t, cfg.keys, now);
            && (who == Err(TokenError)
                <==> claims.None? || (claims.value.jti !in db.jtis
                                      && (Parse(claims.value.sub).None? || Parse(claims.value.tid).None?)))
            && (who == Err(Unauthorized)
                <==> claims.Some?
                     && (claims.value.jti in db.jtis
                         || (&& Parse(claims.value.sub).Some? && Parse(claims.value.tid).Some?
                             && Parse(claims.value.tid) != Some(ctx.tenant) && Parse(claims.value.tid) != cfg.master)))
  {}

  /** A valid bearer token names the account, or an unexpired session on file stands for it. */
  predicate Identified(db: Db, cfg: Config, now: Time, credential: Credential, account: Owner) {
    match credential
    case Bearer(t) => BearerNames(db, cfg, now, t, account)
    case Cookie(s) =>
      s in db.sessions && db.sessions[s].tenant == account.tenant && db.sessions[s].user == account.user
      && now < db.sessions[s].expiresAt
    case Anonymous => false
  }

  lemma IdentifiesExactly(db: Db, cfg: Config, now: Time, credential: Credential, account: Owner)
    ensures Identify(db, cfg, now, credential) == Ok(account) <==> Identified(db, cfg, now, credential, account)
  {}

  /** The headers name the tenant, and show the admin key, a token of the master tenant, or the token of a
      SuperAdmin of this very tenant. */
  predicate Administers(cfg: Config, now: Time, h: Headers, t: Uuid) {
    && h.tenant.Some? && Parse(h.tenant.value) == Some(t)
    && (|| cfg.adminKey == Some(if h.adminKey.Some? then h.adminKey.value else "")
        || (h.bearer.Some? && MayAdminister(cfg, ValidateAccess(h.bearer.value, cfg.keys, now), t)))
  }

  predicate MayAdminister(cfg: Config, claims: Option<Claims>, t: Uuid) {
    claims.Some? && Parse(claims.value.tid).Some?
    && (|| Parse(claims.value.tid) == cfg.master
        || ("SuperAdmin" in claims.value.realmAccess.roles && Parse(claims.value.tid) == Some(t)))
  }

  lemma AdministersExactly(cfg: Config, now: Time, h: Headers, u: Uuid, account: Owner)
    ensures AdminAccount(cfg, now, h, u) == Ok(account)
            <==> account.user == u && Administers(cfg, now, h, account.tenant)
  {}

  // ── Tenants and accounts ───────────────────────────────────────────────────

  /** The tenant is on file, active, and its data key, decrypted, is `key`. */
  ghost predicate InService(tenants: seq<Tenant>, wrapKey: string, t: Uuid, key: string) {
    exists k :: 0 <= k < |tenants| && tenants[k].id == t && tenants[k].active
                && tenants[k].dataKey.key == wrapKey && tenants[k].dataKey.plain == key
  }

  lemma {:induction false} FoundIsThere(tenants: seq<Tenant>, t: Uuid)
    ensures match FindTenant(tenants, t)
            case None => forall k :: 0 <= k < |tenants| ==> tenants[k].id != t
            case Some(row) => row.id == t && exists k :: 0 <= k < |tenants| && tenants[k] == row
  {
    if tenants != [] && tenants[0].id != t {
      FoundIsThere(tenants[1..], t);
      if FindTenant(tenants[1..], t).Some? {
        var k :| 0 <= k < |tenants[1..]| && tenants[1..][k] == FindTenant(tenants[1..], t).value;
        assert tenants[k + 1] == FindTenant(tenants, t).value;
      } else {
        forall k | 0 <= k < |tenants| ensures tenants[k].id != t {
          assert k > 0 ==> tenants[1..][k - 1] == tenants[k];
        }
      }
    }
  }

  lemma TenantKeyExactly(tenants: seq<Tenant>, wrapKey: string, t: Uuid, key: string)
    requires UniqueIds(tenants)
    ensures TenantKey(tenants, wrapKey, t) == Ok(key) <==> InService(tenants, wrapKey, t, key)
    ensures TenantKey(tenants, wrapKey, t) == Err(NotFound)
            <==> forall k :: 0 <= k < |tenants| ==> tenants[k].id != t
    ensures TenantKey(tenants, wrapKey, t) == Err(Unauthorized)
            <==> exists k :: 0 <= k < |tenants| && tenants[k].id == t && !tenants[k].active
  {
    FoundIsThere(tenants, t);
  }

  /** The account is on file in the tenant, active, and its address is sealed under the tenant's key. */
  predicate AccountServes(users: Users, ctx: Ctx, u: Uuid) {
    u in users && users[u].tenant == ctx.tenant && users[u].active && users[u].email.key == ctx.key
  }
}
