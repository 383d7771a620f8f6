/** Who may administer which tenant (handlers/admin_auth.rs). */
module AdminAuth {
  import opened Prelude
  import opened Uuids
  import opened Jwt

  datatype Headers = Headers(adminKey: Option<string>, bearer: Option<Token>, tenant: Option<string>)

  datatype AdminConfig = AdminConfig(keys: Keys, adminKey: Option<string>, master: Option<Uuid>)

  datatype Scope = Denied | Everywhere | Only(tenant: Uuid)

  const SUPER_ADMIN := "SuperAdmin"

  function HeaderTenant(h: Headers): Option<Uuid> {
    if h.tenant.Some? then Parse(h.tenant.value) else None
  }

  /** An absent header counts as the empty key. */
  predicate ShowsAdminKey(h: Headers, cfg: AdminConfig) {
    cfg.adminKey == Some(if h.adminKey.Some? then h.adminKey.value else "")
  }

  function RequireAdmin(h: Headers, cfg: AdminConfig, now: int): Scope {
    if ShowsAdminKey(h, cfg) then Everywhere
    else if h.bearer.None? then Denied
    else
      match ValidateAccess(h.bearer.value, cfg.keys, now)
      case None => Denied
      case Some(claims) =>
        match Parse(claims.tid)
        case None => Denied
        case Some(tid) =>
          if cfg.master == Some(tid) then Everywhere
          else if SUPER_ADMIN in claims.realmAccess.roles && (HeaderTenant(h).None? || HeaderTenant(h) == Some(tid))
          then Only(tid)
          else Denied
  }

  /** A call is served on behalf of a tenant-scoped administrator only if a valid token with the
      SuperAdmin role carries that tenant, which is not the master's. */
  lemma ScopeNeedsToken(h: Headers, cfg: AdminConfig, now: int, tid: Uuid)
    requires RequireAdmin(h, cfg, now) == Only(tid)
    ensures h.bearer.Some? && ValidateAccess(h.bearer.value, cfg.keys, now).Some?
    ensures var claims := ValidateAccess(h.bearer.value, cfg.keys, now).value;
            Parse(claims.tid) == Some(tid) && SUPER_ADMIN in claims.realmAccess.roles
    ensures cfg.master != Some(tid)
  {}

  /** The bearer token is valid, and this is its tenant. */
  predicate BearsTokenOf(h: Headers, cfg: AdminConfig, now: int, tid: Uuid) {
    h.bearer.Some? && ValidateAccess(h.bearer.value, cfg.keys, now).Some?
    && Parse(ValidateAccess(h.bearer.value, cfg.keys, now).value.tid) == Some(tid)
  }

  /** The admin key, or a valid token of the master tenant, opens every tenant; a SuperAdmin's token opens its own,
      unless the header names another; anything else opens none. */
  lemma ScopesExactly(h: Headers, cfg: AdminConfig, now: int, tid: Uuid)
    ensures RequireAdmin(h, cfg, now) == Everywhere
            <==> cfg.adminKey == Some(if h.adminKey.Some? then h.adminKey.value else "")
                 || (cfg.master.Some? && BearsTokenOf(h, cfg, now, cfg.master.value))
    ensures RequireAdmin(h, cfg, now) == Only(tid)
            <==> && BearsTokenOf(h, cfg, now, tid) && cfg.master != Some(tid)
                 && cfg.adminKey != Some(if h.adminKey.Some? then h.adminKey.value else "")
                 && "SuperAdmin" in ValidateAccess(h.bearer.value, cfg.keys, now).value.realmAccess.roles
                 && (h.tenant.None? || Parse(h.tenant.value) == None || Parse(h.tenant.value) == Some(tid))
  {}
}
