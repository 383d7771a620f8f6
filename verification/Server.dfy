/** The service as a program over mutable tables: each handler, statement by statement, proved to
    do what its specification says, and whole runs of it to be the runs the theorems are about. */
module Server {
  import opened Prelude
  import opened Uuids
  import opened Crypto
  import opened Jwt
  import opened AdminAuth
  import opened RateLimit
  import opened Schema
  import H = Handlers
  import opened Handlers
  import opened Effects

  datatype Match = Match(tenant: Uuid, key: string)

  datatype FullMatch = FullMatch(tenant: Uuid, key: string, slug: string, name: string)

  class Server {
    var settings: map<Uuid, Settings>
    var historySize: map<Uuid, int>
    var tenants: seq<Tenant>
    var users: Users
    var clients: map<string, Client>
    var codes: map<string, AuthCode>
    var refresh: RefreshTable
    var jtis: JtiTable
    var sessions: SessionTable
    var attempts: seq<Attempt>
    var buckets: Buckets
    var oneTime: map<Digest, OneTime>
    var totp: map<Owner, TotpRow>
    var backup: seq<BackupRow>
    var history: seq<HistoryRow>

    function Snapshot(): Db
      reads this
    {
      Db(settings, historySize, tenants, users, clients, codes, refresh, jtis, sessions, attempts, buckets,
         oneTime, totp, backup, history)
    }

    /** The uniqueness constraints the queries rely on. */
    ghost predicate Valid()
      reads this
    {
      UniqueLookups(users) && UniqueIds(tenants)
    }

    constructor (db: Db)
      requires UniqueLookups(db.users) && UniqueIds(db.tenants)
      ensures Valid() && Snapshot() == db
    {
      settings, historySize, tenants, users, clients := db.settings, db.historySize, db.tenants, db.users, db.clients;
      codes, refresh, jtis, sessions, attempts := db.codes, db.refresh, db.jtis, db.sessions, db.attempts;
      buckets, oneTime, totp, backup, history := db.buckets, db.oneTime, db.totp, db.backup, db.history;
    }

    // ── Services ─────────────────────────────────────────────────────────────

    /** SELECT ... WHERE email_lookup = l in a tenant transaction. */
    method FindByEmailLookup(t: Uuid, l: Lookup) returns (r: Option<Uuid>)
      requires Valid()
      ensures r == FindByLookup(users, t, l)
    {
      if exists id :: id in users && HasLookup(users, id, t, l) {
        var id :| id in users && HasLookup(users, id, t, l);
        return Some(id);
      }
      return None;
    }

    /** One reading of the authenticator a step early, one now and one a step late. */
    method VerifyCode(cfg: Config, secret: string, code: string, now: Time) returns (ok: bool)
      ensures ok == TotpMatches(cfg, secret, code, now)
    {
      var seconds := if now < 0 then 0 else now;
      var deltas := [-1, 0, 1];
      for i := 0 to |deltas|
        invariant forall k :: 0 <= k < i
                    ==> cfg.totp(secret, TotpCounter(SinceEpoch(now) + deltas[k] * TOTP_STEP)) != Some(code)
      {
        var t := seconds + deltas[i] * TOTP_STEP;
        var unsigned := if t < 0 then t + 0x1_0000_0000_0000_0000 else t;
        if cfg.totp(secret, unsigned / TOTP_STEP) == Some(code) {
          return true;
        }
      }
      assert deltas[0] == -1 && deltas[1] == 0 && deltas[2] == 1;
      return false;
    }

    method CheckHistory(o: Owner, plain: string, size: int) returns (reused: bool)
      ensures reused == Reuses(history, o, plain, size)
    {
      if size <= 0 {
        return false;
      }
      var entries := Newest(HashesOf(history, o), size);
      for i := 0 to |entries|
        invariant forall k :: 0 <= k < i ==> !VerifyPassword(plain, entries[k])
      {
        if VerifyPassword(plain, entries[i]) {
          return true;
        }
      }
      return false;
    }

    method GenerateBackupCodes(upper: Fold, o: Owner, drawn: TenCodes) returns (issued: seq<string>)
      modifies this`backup
      ensures backup == WithoutBackups(old(backup), o) + BackupRows(upper, drawn, o) && issued == drawn
    {
      backup := WithoutBackups(backup, o);
      issued := [];
      for i := 0 to BACKUP_CODE_COUNT
        invariant issued == drawn[..i]
        invariant backup == WithoutBackups(old(backup), o) + BackupRows(upper, drawn[..i], o)
      {
        backup := backup + [BackupRow(o.tenant, o.user, HashBackup(upper, drawn[i]), None)];
        issued := issued + [drawn[i]];
      }
      assert drawn[..BACKUP_CODE_COUNT] == drawn;
    }

    method ConsumeBackupCode(upper: Fold, o: Owner, code: string, now: Time) returns (found: bool)
      modifies this`backup
      ensures found == (FindBackup(old(backup), o, HashBackup(upper, code)) < |old(backup)|)
      ensures backup == RedeemBackup(upper, old(backup), o, code, now)
    {
      var i := FindBackup(backup, o, HashBackup(upper, code));
      if i == |backup| {
        return false;
      }
      backup := backup[i := backup[i].(usedAt := Some(now))];
      return true;
    }

    method Authenticate(cfg: Config, now: Time, ctx: Ctx, bearer: Token) returns (r: Result<Claims, AppError>)
      ensures r == H.Authenticate(Snapshot(), cfg, now, ctx, bearer)
    {
      var validated := ValidateAccess(bearer, cfg.keys, now);
      if validated.None? {
        return Err(TokenError);
      }
      var claims := validated.value;
      if claims.jti in jtis {
        return Err(Unauthorized);
      }
      var user, tenant := Parse(claims.sub), Parse(claims.tid);
      if user.None? || tenant.None? {
        return Err(TokenError);
      }
      var isMasterAdmin := cfg.master == tenant;
      if !isMasterAdmin && tenant.value != ctx.tenant {
        return Err(Unauthorized);
      }
      return Ok(claims);
    }

    method StoreRefreshToken(o: Owner, mint: Issuance, now: Time, days: int)
      modifies this`refresh
      ensures RefreshStored(old(refresh), refresh, Sha256(mint.refresh), o, now + days * DAY)
    {
      refresh := refresh[Sha256(mint.refresh) := RefreshRow(o.tenant, o.user, now + days * DAY, None)];
    }

    method CreateSession(o: Owner, mint: Issuance, now: Time, days: int) returns (created: Option<string>)
      modifies this`sessions
      ensures created == SessionReply(old(sessions), mint.session)
      ensures sessions == WithSession(old(sessions), Some(o), mint, now, days)
    {
      if mint.session in sessions {
        return None;
      }
      sessions := sessions[mint.session := Session(o.tenant, o.user, now + days * DAY, now)];
      return Some(mint.session);
    }

    /** Refresh token, session and access token for an account, under its tenant's settings. */
    method SignIn(cfg: Config, now: Time, o: Owner, address: string, mint: Issuance) returns (reply: Reply)
      modifies this`refresh, this`sessions
      ensures refresh == WithRefresh(old(refresh), Some(o), mint, now, SettingsOf(settings, o.tenant).refreshDays)
      ensures sessions == WithSession(old(sessions), Some(o), mint, now, SettingsOf(settings, o.tenant).refreshDays)
      ensures reply == SignedIn(old(Snapshot()), cfg, o, address, now, mint)
    {
      var s := SettingsOf(settings, o.tenant);
      StoreRefreshToken(o, mint, now, s.refreshDays);
      WithRefreshIs(old(refresh), refresh, o, mint, now, s.refreshDays);
      var session := CreateSession(o, mint, now, s.refreshDays);
      return Tokens(AccessFor(cfg, o, address, now, s.accessMinutes, mint, map[]), mint.refresh, session);
    }

    // ── Registration and verification ────────────────────────────────────────

    method Register(now: Time, ctx: Ctx, email: string, password: NewPassword, formatOk: bool, id: Uuid, otp: string)
      returns (reply: Reply)
      requires Valid()
      modifies this`users, this`oneTime
      ensures Valid()
      ensures Outcome(Snapshot(), reply) == RegisterSpec(old(Snapshot()), now, ctx, email, password, formatOk, id, otp)
    {
      var s := SettingsOf(settings, ctx.tenant);
      if !s.registration {
        return Refused(Forbidden);
      }
      if !formatOk {
        return Refused(InvalidInput);
      }
      var lookup := Lookup(email, ctx.key);
      var existing := FindByEmailLookup(ctx.tenant, lookup);
      if existing.Some? {
        return Refused(Conflict);
      }
      if id in users {
        return Refused(Internal);
      }
      users := users[id := User(ctx.tenant, lookup, Sealed(email, ctx.key), HashNew(password), true, false)];
      assert forall i, t, l :: HasLookup(users, i, t, l) ==> i == id || HasLookup(old(users), i, t, l);
      if s.requireVerified {
        var h := OtpHash(id, otp);
        if h in oneTime {
          return Refused(Internal);
        }
        oneTime := oneTime[h := OneTime(ctx.tenant, id, EmailVerification, now + 24 * HOUR, None)];
      }
      return Done;
    }

    method VerifyEmail(now: Time, ctx: Ctx, email: string, otp: string) returns (reply: Reply)
      requires Valid()
      modifies this`users, this`oneTime
      ensures Valid()
      ensures Outcome(Snapshot(), reply) == VerifyEmailSpec(old(Snapshot()), now, ctx, email, otp)
    {
      var id := FindByEmailLookup(ctx.tenant, Lookup(email, ctx.key));
      if id.None? {
        return Refused(InvalidInput);
      }
      var h := OtpHash(id.value, otp);
      if h !in oneTime || !oneTime[h].kind.EmailVerification? || oneTime[h].usedAt.Some? {
        return Refused(InvalidInput);
      }
      if oneTime[h].expiresAt < now {
        return Refused(InvalidInput);
      }
      oneTime := oneTime[h := oneTime[h].(usedAt := Some(now))];
      users := users[id.value := users[id.value].(verified := true)];
      assert forall i, t, l :: HasLookup(users, i, t, l) ==> HasLookup(old(users), i, t, l);
      return Done;
    }

    // ── Login ────────────────────────────────────────────────────────────────

    method CheckLogin(now: Time, ctx: Ctx, email: string, plain: string) returns (v: LoginVerdict)
      requires Valid()
      ensures v == JudgeLogin(Snapshot(), now, ctx, email, plain)
    {
      var lookup := Lookup(email, ctx.key);
      if Locked(settings, attempts, ctx.tenant, lookup, now) {
        return Declined(Unauthorized);
      }
      var found := FindByEmailLookup(ctx.tenant, lookup);
      if found.None? {
        return Mismatch;
      }
      var user := users[found.value];
      if !user.active {
        return Declined(Unauthorized);
      }
      if SettingsOf(settings, ctx.tenant).requireVerified && !user.verified {
        return Declined(InvalidInput);
      }
      if !VerifyPassword(plain, user.password) {
        return Mismatch;
      }
      if Open(user.email, ctx.key).None? {
        return Declined(CryptoError);
      }
      return Verified(found.value);
    }

    method RecordAttempt(t: Uuid, l: Lookup, now: Time)
      modifies this`attempts
      ensures attempts == old(attempts) + [Attempt(t, l, now)]
    {
      attempts := attempts + [Attempt(t, l, now)];
    }

    method ClearAttempts(t: Uuid, l: Lookup)
      modifies this`attempts
      ensures attempts == Cleared(old(attempts), t, l)
    {
      attempts := Cleared(attempts, t, l);
    }

    method Login(cfg: Config, now: Time, ctx: Ctx, email: string, plain: string, mint: Issuance) returns (reply: Reply)
      requires Valid()
      modifies this`attempts, this`refresh, this`sessions
      ensures Valid()
      ensures var v := JudgeLogin(old(Snapshot()), now, ctx, email, plain);
              var who, days := LoginIssuesTo(totp, ctx.tenant, v), SettingsOf(settings, ctx.tenant).refreshDays;
              && attempts == AttemptsAfter(old(attempts), ctx.tenant, Lookup(email, ctx.key), now, v)
              && refresh == WithRefresh(old(refresh), who, mint, now, days)
              && sessions == WithSession(old(sessions), who, mint, now, days)
              && reply == LoginReply(old(Snapshot()), cfg, now, ctx.tenant, v, mint)
    {
      var lookup := Lookup(email, ctx.key);
      var verdict := CheckLogin(now, ctx, email, plain);
      match verdict
      case Declined(e) =>
        return Refused(e);
      case Mismatch =>
        RecordAttempt(ctx.tenant, lookup, now);
        return Refused(Unauthorized);
      case Verified(id) =>
        ClearAttempts(ctx.tenant, lookup);
        if MfaEnabled(totp, Owner(ctx.tenant, id)) {
          return MfaRequired(MfaFor(cfg, Owner(ctx.tenant, id), now));
        }
        reply := SignIn(cfg, now, Owner(ctx.tenant, id), users[id].email.plain, mint);
    }

    /** The first scan: which active tenants with a readable key know the address. */
    method ScanTenants(cfg: Config, email: string) returns (matches: seq<Match>)
      requires Valid()
      ensures var found := Holders(users, cfg.wrapKey, tenants, email);
              |matches| == |found|
              && forall k :: 0 <= k < |found| ==> HoldsEmail(users, cfg.wrapKey, found[k], email)
                                                  && matches[k] == Match(found[k].id, found[k].dataKey.plain)
                                                  && found[k] in tenants
    {
      matches := [];
      for i := 0 to |tenants|
        invariant |matches| == |Holders(users, cfg.wrapKey, tenants[..i], email)|
        invariant var found := Holders(users, cfg.wrapKey, tenants[..i], email);
                  forall k :: 0 <= k < |found| ==> HoldsEmail(users, cfg.wrapKey, found[k], email)
                                                   && matches[k] == Match(found[k].id, found[k].dataKey.plain)
                                                   && found[k] in tenants
      {
        assert tenants[..i + 1][..i] == tenants[..i];
        var t := tenants[i];
        if t.active {
          var key := Open(t.dataKey, cfg.wrapKey);
          if key.Some? {
            var user := FindByEmailLookup(t.id, Lookup(email, key.value));
            if user.Some? {
              matches := matches + [Match(t.id, key.value)];
            }
          }
        }
      }
      assert tenants[..|tenants|] == tenants;
    }

    /** The second scan: slug and name of each match, from the tenants read again. */
    method Describe(matches: seq<Match>, ghost found: seq<Tenant>) returns (full: seq<FullMatch>)
      requires Valid() && |found| == |matches|
      requires forall k :: 0 <= k < |found|
                 ==> found[k] in tenants && matches[k] == Match(found[k].id, found[k].dataKey.plain)
      ensures |full| == |found|
      ensures forall k :: 0 <= k < |found|
                ==> full[k] == FullMatch(found[k].id, found[k].dataKey.plain, found[k].slug, found[k].name)
    {
      full := [];
      for i := 0 to |matches|
        invariant |full| == i
        invariant forall k :: 0 <= k < i
                    ==> full[k] == FullMatch(found[k].id, found[k].dataKey.plain, found[k].slug, found[k].name)
      {
        FoundById(tenants, found[i]);
        var row := FindTenant(tenants, matches[i].tenant);
        if row.Some? {
          full := full + [FullMatch(matches[i].tenant, matches[i].key, row.value.slug, row.value.name)];
        }
      }
    }

    /** The checks of the login in the one match, with the failures they record: a text of its own, which never
        calls the tenant login. */
    method CheckInMatch(now: Time, tenant: Uuid, key: string, email: string, plain: string) returns (v: LoginVerdict)
      requires Valid()
      modifies this`attempts
      ensures v == JudgeLogin(old(Snapshot()), now, Ctx(tenant, key), email, plain)
      ensures attempts == if v.Mismatch? then old(attempts) + [Attempt(tenant, Lookup(email, key), now)]
                          else old(attempts)
    {
      var lookup := Lookup(email, key);
      var s := SettingsOf(settings, tenant);
      if CountSince(attempts, tenant, lookup, now - s.windowMinutes * MINUTE) >= AsUsize(s.maxAttempts) {
        return Declined(Unauthorized);
      }
      var found := FindByEmailLookup(tenant, lookup);
      if found.None? {
        RecordAttempt(tenant, lookup, now);
        return Mismatch;
      }
      var user := users[found.value];
      if !user.active {
        return Declined(Unauthorized);
      }
      if s.requireVerified && !user.verified {
        return Declined(InvalidInput);
      }
      if !VerifyPassword(plain, user.password) {
        RecordAttempt(tenant, lookup, now);
        return Mismatch;
      }
      if Open(user.email, key).None? {
        return Declined(CryptoError);
      }
      return Verified(found.value);
    }

    method LoginInMatch(cfg: Config, now: Time, tenant: Uuid, key: string, email: string, plain: string, mint: Issuance)
      returns (reply: Reply)
      requires Valid()
      modifies this`attempts, this`refresh, this`sessions
      ensures Valid()
      ensures var v := JudgeLogin(old(Snapshot()), now, Ctx(tenant, key), email, plain);
              var who, days := LoginIssuesTo(totp, tenant, v), SettingsOf(settings, tenant).refreshDays;
              && attempts == AttemptsAfter(old(attempts), tenant, Lookup(email, key), now, v)
              && refresh == WithRefresh(old(refresh), who, mint, now, days)
              && sessions == WithSession(old(sessions), who, mint, now, days)
              && reply == LoginReply(old(Snapshot()), cfg, now, tenant, v, mint)
    {
      var verdict := CheckInMatch(now, tenant, key, email, plain);
      match verdict
      case Declined(e) =>
        return Refused(e);
      case Mismatch =>
        return Refused(Unauthorized);
      case Verified(id) =>
        reply := IssueInMatch(cfg, now, Owner(tenant, id), Lookup(email, key), users[id].email.plain, mint);
    }

    method IssueInMatch(cfg: Config, now: Time, o: Owner, lookup: Lookup, address: string, mint: Issuance)
      returns (reply: Reply)
      modifies this`attempts, this`refresh, this`sessions
      ensures var who := if MfaEnabled(totp, o) then None else Some(o);
              var days := SettingsOf(settings, o.tenant).refreshDays;
              && attempts == Cleared(old(attempts), o.tenant, lookup)
              && refresh == WithRefresh(old(refresh), who, mint, now, days)
              && sessions == WithSession(old(sessions), who, mint, now, days)
              && reply == if MfaEnabled(totp, o) then MfaRequired(MfaFor(cfg, o, now))
                          else SignedIn(old(Snapshot()), cfg, o, address, now, mint)
    {
      if MfaEnabled(totp, o) {
        ClearAttempts(o.tenant, lookup);
        return MfaRequired(MfaFor(cfg, o, now));
      }
      var s := SettingsOf(settings, o.tenant);
      var access := AccessFor(cfg, o, address, now, s.accessMinutes, mint, map[]);
      StoreRefreshToken(o, mint, now, s.refreshDays);
      WithRefreshIs(old(refresh), refresh, o, mint, now, s.refreshDays);
      ClearAttempts(o.tenant, lookup);
      var session := CreateSession(o, mint, now, s.refreshDays);
      return Tokens(access, mint.refresh, session);
    }

    method LoginUniversal(cfg: Config, now: Time, email: string, plain: string, mint: Issuance) returns (reply: Reply)
      requires Valid()
      modifies this`attempts, this`refresh, this`sessions
      ensures Valid()
      ensures Outcome(Snapshot(), reply) == LoginUniversalSpec(old(Snapshot()), cfg, now, email, plain, mint)
    {
      ghost var found := Holders(users, cfg.wrapKey, tenants, email);
      var matches := ScanTenants(cfg, email);
      if matches == [] {
        return Refused(Unauthorized);
      }
      var full := Describe(matches, found);
      if full == [] {
        return Refused(Unauthorized);
      }
      if |full| > 1 {
        var choices := seq(|full|, i requires 0 <= i < |full| => (full[i].slug, full[i].name));
        assert choices == Labels(found);
        return TenantChoice(choices);
      }
      assert HoldsEmail(users, cfg.wrapKey, found[0], email);
      reply := LoginInMatch(cfg, now, full[0].tenant, full[0].key, email, plain, mint);
    }

    // ── Refresh and the code grant ───────────────────────────────────────────

    /** Rotation revokes first; every failure after that rolls the transaction back. */
    method Refresh(cfg: Config, now: Time, ctx: Ctx, token: string, mint: Issuance) returns (reply: Reply)
      modifies this`refresh
      ensures Outcome(Snapshot(), reply) == RefreshSpec(old(Snapshot()), cfg, now, ctx, token, mint)
    {
      var begun := refresh;
      var h := Sha256(token);
      var row := FindLive(refresh, ctx.tenant, h, now);
      if row.None? {
        return Refused(Unauthorized);
      }
      refresh := refresh[h := Revoked(row.value, now)];
      var user := VisibleUser(users, ctx.tenant, row.value.user);
      if user.None? || !user.value.active {
        refresh := begun;
        return Refused(Unauthorized);
      }
      var address := Open(user.value.email, ctx.key);
      if address.None? {
        refresh := begun;
        return Refused(CryptoError);
      }
      var owner := Owner(ctx.tenant, row.value.user);
      ghost var revoked := refresh;
      StoreRefreshToken(owner, mint, now, cfg.refreshDays);
      WithRefreshIs(revoked, refresh, owner, mint, now, cfg.refreshDays);
      return Tokens(AccessFor(cfg, owner, address.value, now, cfg.jwtMinutes, mint, map[]), mint.refresh, None);
    }

    method Identify(cfg: Config, now: Time, credential: Credential) returns (r: Result<Owner, AppError>)
      modifies this`sessions
      ensures r == H.Identify(old(Snapshot()), cfg, now, credential)
      ensures sessions == if r.Ok? then SessionsSeen(old(sessions), credential, now) else old(sessions)
    {
      match credential
      case Bearer(t) =>
        var validated := ValidateAccess(t, cfg.keys, now);
        if validated.None? {
          return Err(TokenError);
        }
        if validated.value.jti in jtis {
          return Err(Unauthorized);
        }
        var tenant, user := Parse(validated.value.tid), Parse(validated.value.sub);
        if tenant.None? || user.None? {
          return Err(TokenError);
        }
        return Ok(Owner(tenant.value, user.value));
      case Cookie(id) =>
        var session := FindSession(sessions, id, now);
        if session.None? {
          return Err(Unauthorized);
        }
        sessions := TouchSession(sessions, id, now);
        return Ok(Owner(session.value.tenant, session.value.user));
      case Anonymous =>
        return Err(Unauthorized);
    }

    method Authorize(cfg: Config, now: Time, credential: Credential, p: AuthorizeParams, newCode: string)
      returns (reply: Reply)
      modifies this`codes, this`sessions
      ensures Outcome(Snapshot(), reply) == AuthorizeSpec(old(Snapshot()), cfg, now, credential, p, newCode)
    {
      var who := Identify(cfg, now, credential);
      if who.Err? {
        return Refused(who.error);
      }
      if p.responseType != "code" {
        return Refused(InvalidInput);
      }
      if p.challengeMethod != "S256" {
        return Refused(InvalidInput);
      }
      if p.challenge == Literal("") {
        return Refused(InvalidInput);
      }
      var client := VisibleClient(clients, who.value.tenant, p.clientId);
      if client.None? {
        return Refused(NotFound);
      }
      if p.redirectUri !in client.value.redirectUris {
        return Refused(InvalidInput);
      }
      if newCode in codes {
        return Refused(Internal);
      }
      codes := codes[newCode := AuthCode(who.value.tenant, who.value.user, p.clientId, p.redirectUri, p.challenge,
                                         now + CODE_MINUTES * MINUTE, None)];
      return CodeIssued(newCode);
    }

    /** The code of a token request: present, on file, unexpired, unused, same redirect, S256 verifier. */
    method CheckCode(now: Time, req: TokenRequest) returns (r: Option<AuthCode>)
      ensures r == RedeemableCode(codes, now, req)
    {
      if req.code.None? || req.redirectUri.None? || req.verifier.None? {
        return None;
      }
      if req.code.value !in codes {
        return None;
      }
      var row := codes[req.code.value];
      if row.expiresAt < now || row.usedAt.Some? || row.redirectUri != req.redirectUri.value {
        return None;
      }
      if S256(req.verifier.value) != row.challenge {
        return None;
      }
      return Some(row);
    }

    /** Its client: active in the code's tenant, the one the code was issued to, and authenticated. */
    method CheckClient(row: AuthCode, req: TokenRequest) returns (r: Option<Client>)
      ensures r == AuthenticClient(clients, row, req)
    {
      var client := VisibleClient(clients, row.tenant, req.clientId);
      if client.None? || req.clientId != row.clientId {
        return None;
      }
      if client.value.confidential {
        if req.clientSecret.None? || Sha256(req.clientSecret.value) != client.value.secretHash {
          return None;
        }
      }
      return client;
    }

    /** The code is marked used inside the transaction, so a later failure leaves it usable. */
    method Exchange(cfg: Config, now: Time, req: TokenRequest, mint: Issuance) returns (reply: Reply)
      modifies this`codes, this`refresh
      ensures Outcome(Snapshot(), reply) == ExchangeSpec(old(Snapshot()), cfg, now, req, mint)
    {
      var found := CheckCode(now, req);
      if found.None? {
        return Refused(InvalidInput);
      }
      var code, row := req.code.value, found.value;
      var client := CheckClient(row, req);
      if client.None? {
        return Refused(Unauthorized);
      }
      var begun := codes;
      codes := codes[code := row.(usedAt := Some(now))];
      var key := TenantKey(tenants, cfg.wrapKey, row.tenant);
      if key.Err? {
        codes := begun;
        return Refused(key.error);
      }
      var user := VisibleUser(users, row.tenant, row.user);
      if user.None? {
        codes := begun;
        return Refused(NotFound);
      }
      var address := Open(user.value.email, key.value);
      if address.None? {
        codes := begun;
        return Refused(CryptoError);
      }
      var minutes := if client.value.accessMinutes.Some? then client.value.accessMinutes.value else cfg.jwtMinutes;
      var days := if client.value.refreshDays.Some? then client.value.refreshDays.value else cfg.refreshDays;
      var owner := Owner(row.tenant, row.user);
      assert ExchangeCheck(old(Snapshot()), cfg, now, req) == Ok(row);
      StoreRefreshToken(owner, mint, now, days);
      WithRefreshIs(old(refresh), refresh, owner, mint, now, days);
      return Tokens(AccessFor(cfg, owner, address.value, now, minutes, mint, mint.resources), mint.refresh, None);
    }

    // ── MFA ──────────────────────────────────────────────────────────────────

    method MfaSetup(cfg: Config, now: Time, ctx: Ctx, bearer: Token, secret: string) returns (reply: Reply)
      modifies this`totp
      ensures Outcome(Snapshot(), reply) == MfaSetupSpec(old(Snapshot()), cfg, now, ctx, bearer, secret)
    {
      var auth := Authenticate(cfg, now, ctx, bearer);
      if auth.Err? {
        return Refused(auth.error);
      }
      var owner := Owner(ctx.tenant, Subject(auth.value));
      var user := VisibleUser(users, ctx.tenant, owner.user);
      if user.None? {
        return Refused(NotFound);
      }
      if Open(user.value.email, ctx.key).None? {
        return Refused(CryptoError);
      }
      totp := totp - {owner};
      totp := totp[owner := TotpRow(Sealed(secret, ctx.key), false)];
      return TotpPending(secret);
    }

    method MfaConfirm(cfg: Config, now: Time, ctx: Ctx, bearer: Token, code: string) returns (reply: Reply)
      modifies this`totp
      ensures Outcome(Snapshot(), reply) == MfaConfirmSpec(old(Snapshot()), cfg, now, ctx, bearer, code)
    {
      var auth := Authenticate(cfg, now, ctx, bearer);
      if auth.Err? {
        return Refused(auth.error);
      }
      var owner := Owner(ctx.tenant, Subject(auth.value));
      if owner !in totp {
        return Refused(NotFound);
      }
      var secret := Open(totp[owner].secret, ctx.key);
      if secret.None? {
        return Refused(CryptoError);
      }
      var ok := VerifyCode(cfg, secret.value, code, now);
      if !ok {
        return Refused(Unauthorized);
      }
      totp := totp[owner := totp[owner].(enabled := true)];
      return Done;
    }

    method Reauthenticate(cfg: Config, now: Time, ctx: Ctx, bearer: Token, code: string)
      returns (r: Result<Owner, AppError>)
      ensures r == H.Reauthenticate(Snapshot(), cfg, now, ctx, bearer, code)
    {
      var auth := Authenticate(cfg, now, ctx, bearer);
      if auth.Err? {
        return Err(auth.error);
      }
      var owner := Owner(ctx.tenant, Subject(auth.value));
      if !MfaEnabled(totp, owner) {
        return Err(NotFound);
      }
      var secret := Open(totp[owner].secret, ctx.key);
      if secret.None? {
        return Err(CryptoError);
      }
      var ok := VerifyCode(cfg, secret.value, code, now);
      if !ok {
        return Err(Unauthorized);
      }
      return Ok(owner);
    }

    /** `disable`, then `delete_backup_codes`. */
    method RemoveMfa(o: Owner)
      modifies this`totp, this`backup
      ensures MfaRemoved(old(Snapshot()), Snapshot(), o)
    {
      totp := totp - {o};
      backup := WithoutBackups(backup, o);
      WithoutBackupsIs(old(backup), backup, o);
    }

    method MfaDisable(cfg: Config, now: Time, ctx: Ctx, bearer: Token, code: string) returns (reply: Reply)
      modifies this`totp, this`backup
      ensures Outcome(Snapshot(), reply) == MfaDisableSpec(old(Snapshot()), cfg, now, ctx, bearer, code)
    {
      var who := Reauthenticate(cfg, now, ctx, bearer, code);
      if who.Err? {
        return Refused(who.error);
      }
      RemoveMfa(who.value);
      WithoutMfaIs(old(Snapshot()), Snapshot(), who.value);
      return Done;
    }

    /** `require_admin`, then `extract_tenant_id`. */
    method CheckAdmin(cfg: Config, now: Time, headers: Headers, user: Uuid) returns (r: Result<Owner, AppError>)
      ensures r == AdminAccount(cfg, now, headers, user)
    {
      var scope := RequireAdmin(headers, AdminConfig(cfg.keys, cfg.adminKey, cfg.master), now);
      if scope.Denied? {
        return Err(Unauthorized);
      }
      if headers.tenant.None? {
        return Err(InvalidInput);
      }
      var tenant := Parse(headers.tenant.value);
      if tenant.None? {
        return Err(InvalidInput);
      }
      return Ok(Owner(tenant.value, user));
    }

    method AdminDisableMfa(cfg: Config, now: Time, headers: Headers, user: Uuid) returns (reply: Reply)
      modifies this`totp, this`backup
      ensures Outcome(Snapshot(), reply) == AdminDisableMfaSpec(old(Snapshot()), cfg, now, headers, user)
      ensures var who := AdminAccount(cfg, now, headers, user);
              if who.Ok? then reply == Done && MfaRemoved(old(Snapshot()), Snapshot(), who.value)
              else reply == Refused(who.error) && Snapshot() == old(Snapshot())
    {
      var who := CheckAdmin(cfg, now, headers, user);
      if who.Err? {
        return Refused(who.error);
      }
      RemoveMfa(who.value);
      WithoutMfaIs(old(Snapshot()), Snapshot(), who.value);
      return Done;
    }

    method MfaBackupCodes(cfg: Config, now: Time, ctx: Ctx, bearer: Token, code: string, drawn: TenCodes)
      returns (reply: Reply)
      modifies this`backup
      ensures Outcome(Snapshot(), reply) == MfaBackupCodesSpec(old(Snapshot()), cfg, now, ctx, bearer, code, drawn)
    {
      var who := Reauthenticate(cfg, now, ctx, bearer, code);
      if who.Err? {
        return Refused(who.error);
      }
      var issued := GenerateBackupCodes(cfg.upper, who.value, drawn);
      return BackupIssued(issued);
    }

    /** The second factor; a backup code is used up here, before the account is looked at. */
    method CheckFactor(cfg: Config, now: Time, ctx: Ctx, o: Owner, totpCode: Option<string>, backupCode: Option<string>)
      returns (r: Result<bool, AppError>)
      requires o in totp
      modifies this`backup
      ensures match SecondFactor(old(Snapshot()), cfg, now, ctx, o, totpCode, backupCode)
              case Proved(rows) => r == Ok(true) && backup == rows
              case Failed => r == Ok(false) && backup == old(backup)
              case Undecryptable => r == Err(CryptoError) && backup == old(backup)
    {
      var verified := false;
      if totpCode.Some? {
        var secret := Open(totp[o].secret, ctx.key);
        if secret.None? {
          return Err(CryptoError);
        }
        verified := VerifyCode(cfg, secret.value, totpCode.value, now);
      } else if backupCode.Some? {
        verified := ConsumeBackupCode(cfg.upper, o, backupCode.value, now);
      }
      return Ok(verified);
    }

    method VerifyMfaToken(cfg: Config, now: Time, token: Token) returns (r: Result<MfaClaims, AppError>)
      ensures r.Ok? <==> VerifyMfa(token, cfg.keys, now).Some?
      ensures r.Ok? ==> VerifyMfa(token, cfg.keys, now) == Some(r.value)
      ensures r.Err? ==> r.error == ChallengeError(cfg, now, token)
    {
      var keys := cfg.keys;
      var decoded := DecodeMfa(token, keys.secret, keys.leeway, now);
      if decoded.None? {
        if keys.previous.None? {
          return Err(Unauthorized);
        }
        decoded := DecodeMfa(token, keys.previous.value, keys.leeway, now);
        if decoded.None? {
          return Err(TokenError);
        }
      }
      if decoded.value.purpose != "mfa_challenge" {
        return Err(Unauthorized);
      }
      return Ok(decoded.value);
    }

    /** The account that an MFA token of this tenant names. */
    method CheckMfaToken(cfg: Config, now: Time, ctx: Ctx, mfaToken: Token) returns (r: Result<Owner, AppError>)
      ensures r.Ok? <==> Challenged(cfg, now, ctx, mfaToken).Some?
      ensures r.Ok? ==> Challenged(cfg, now, ctx, mfaToken) == Some(r.value)
      ensures r.Err? ==> r.error == ChallengeError(cfg, now, mfaToken)
    {
      var claims := VerifyMfaToken(cfg, now, mfaToken);
      if claims.Err? {
        return Err(claims.error);
      }
      var user := Parse(claims.value.sub);
      if user.None? {
        return Err(Unauthorized);
      }
      var tenant := Parse(claims.value.tid);
      if tenant.None? {
        return Err(Unauthorized);
      }
      if tenant.value != ctx.tenant {
        return Err(Unauthorized);
      }
      return Ok(Owner(ctx.tenant, user.value));
    }

    method CheckChallenge(cfg: Config, now: Time, ctx: Ctx, mfaToken: Token, totpCode: Option<string>,
                          backupCode: Option<string>)
      returns (v: ChallengeVerdict)
      modifies this`backup
      ensures v == JudgeChallenge(old(Snapshot()), cfg, now, ctx, mfaToken, totpCode, backupCode)
      ensures backup == BackupAfter(old(backup), v)
    {
      var o := CheckMfaToken(cfg, now, ctx, mfaToken);
      if o.Err? {
        return Rejected(o.error);
      }
      if !MfaEnabled(totp, o.value) {
        return Rejected(Unauthorized);
      }
      var begun := backup;
      var factor := CheckFactor(cfg, now, ctx, o.value, totpCode, backupCode);
      if factor.Err? {
        return Rejected(factor.error);
      }
      if !factor.value {
        return Rejected(Unauthorized);
      }
      var user := VisibleUser(users, ctx.tenant, o.value.user);
      if user.None? {
        backup := begun;
        return Rejected(Unauthorized);
      }
      if !user.value.active {
        return Inactive(backup);
      }
      if Open(user.value.email, ctx.key).None? {
        backup := begun;
        return Rejected(CryptoError);
      }
      return Passed(o.value, backup);
    }

    method MfaChallenge(cfg: Config, now: Time, ctx: Ctx, mfaToken: Token, totpCode: Option<string>,
                        backupCode: Option<string>, mint: Issuance)
      returns (reply: Reply)
      modifies this`backup, this`refresh, this`sessions
      ensures var v := JudgeChallenge(old(Snapshot()), cfg, now, ctx, mfaToken, totpCode, backupCode);
              var who, days := ChallengeIssuesTo(v), SettingsOf(settings, ctx.tenant).refreshDays;
              && backup == BackupAfter(old(backup), v)
              && refresh == WithRefresh(old(refresh), who, mint, now, days)
              && sessions == WithSession(old(sessions), who, mint, now, days)
              && reply == ChallengeReply(old(Snapshot()), cfg, now, v, mint)
    {
      var verdict := CheckChallenge(cfg, now, ctx, mfaToken, totpCode, backupCode);
      match verdict
      case Rejected(e) =>
        return Refused(e);
      case Inactive(_) =>
        return Refused(Unauthorized);
      case Passed(o, _) =>
        reply := SignIn(cfg, now, o, users[o.user].email.plain, mint);
    }

    // ── Passwords ────────────────────────────────────────────────────────────

    method ForgotPassword(now: Time, ctx: Ctx, email: string, drawnToken: string) returns (reply: Reply)
      requires Valid()
      modifies this`oneTime
      ensures Outcome(Snapshot(), reply) == ForgotPasswordSpec(old(Snapshot()), now, ctx, email, drawnToken)
    {
      var id := FindByEmailLookup(ctx.tenant, Lookup(email, ctx.key));
      if id.Some? && users[id.value].active {
        var h := Sha256(drawnToken);
        if h in oneTime {
          return Refused(Internal);
        }
        oneTime := oneTime[h := OneTime(ctx.tenant, id.value, PasswordReset, now + RESET_MINUTES * MINUTE, None)];
      }
      return Done;
    }

    /** `consume`: the token row is spent outside the transaction that follows. */
    method ConsumeResetToken(token: string, now: Time) returns (r: Result<OneTime, AppError>)
      modifies this`oneTime
      ensures r.Ok? ==> Sha256(token) in old(oneTime) && r.value == old(oneTime)[Sha256(token)]
                        && r.value.kind.PasswordReset? && r.value.usedAt.None? && r.value.expiresAt >= now
                        && oneTime == Spend(old(oneTime), Sha256(token), now)
      ensures r.Err? ==> oneTime == old(oneTime)
                         && r.error == (if Sha256(token) !in oneTime || !oneTime[Sha256(token)].kind.PasswordReset?
                                        then NotFound else InvalidInput)
                         && (r.error.InvalidInput?
                             ==> oneTime[Sha256(token)].usedAt.Some? || oneTime[Sha256(token)].expiresAt < now)
    {
      var h := Sha256(token);
      if h !in oneTime || !oneTime[h].kind.PasswordReset? {
        return Err(NotFound);
      }
      if oneTime[h].usedAt.Some? {
        return Err(InvalidInput);
      }
      if oneTime[h].expiresAt < now {
        return Err(InvalidInput);
      }
      r := Ok(oneTime[h]);
      oneTime := oneTime[h := oneTime[h].(usedAt := Some(now))];
    }

    method CheckReset(now: Time, ctx: Ctx, token: string, plain: string, formatOk: bool) returns (v: ResetVerdict)
      modifies this`oneTime
      ensures v == JudgeReset(old(Snapshot()), now, ctx, token, plain, formatOk)
      ensures oneTime == if v.TokenRefused? then old(oneTime) else Spend(old(oneTime), Sha256(token), now)
    {
      var row := ConsumeResetToken(token, now);
      if row.Err? {
        return TokenRefused(row.error);
      }
      if row.value.tenant != ctx.tenant {
        return SpentInVain(Unauthorized);
      }
      if !formatOk {
        return SpentInVain(InvalidInput);
      }
      var reused := CheckHistory(Owner(ctx.tenant, row.value.user), plain, HistorySizeOf(historySize, ctx.tenant));
      if reused {
        return SpentInVain(InvalidInput);
      }
      if VisibleUser(users, ctx.tenant, row.value.user).None? {
        return SpentInVain(NotFound);
      }
      return Accepted(row.value.user);
    }

    method ReplacePassword(o: Owner, password: NewPassword, now: Time)
      requires Valid() && o.user in users
      modifies this`users, this`history
      ensures Valid()
      ensures users == SetPassword(old(users), o.user, password)
      ensures history == Remembered(old(history), o, password, now)
    {
      users := users[o.user := users[o.user].(password := HashNew(password))];
      assert forall i, t, l :: HasLookup(users, i, t, l) ==> HasLookup(old(users), i, t, l);
      history := history + [HistoryRow(o.tenant, o.user, HashNew(password), now)];
    }

    /** The transaction of a reset: new password, its history row, and the end of every session. */
    method ApplyReset(ctx: Ctx, verdict: ResetVerdict, password: NewPassword, now: Time) returns (reply: Reply)
      requires Valid() && (verdict.Accepted? ==> verdict.user in users)
      modifies this`users, this`history, this`refresh
      ensures Valid() && reply == ResetReply(verdict)
      ensures users == UsersAfterReset(old(users), verdict, password)
      ensures history == HistoryAfterReset(old(history), verdict, ctx.tenant, password, now)
      ensures refresh == RefreshAfterReset(old(refresh), verdict, ctx.tenant, now)
    {
      match verdict
      case TokenRefused(e) =>
        return Refused(e);
      case SpentInVain(e) =>
        return Refused(e);
      case Accepted(user) =>
        ReplacePassword(Owner(ctx.tenant, user), password, now);
        refresh := RevokeAllOf(refresh, ctx.tenant, user, now);
        return Done;
    }

    method ResetPassword(now: Time, ctx: Ctx, token: string, password: NewPassword, formatOk: bool)
      returns (reply: Reply)
      requires Valid()
      modifies this`oneTime, this`users, this`history, this`refresh
      ensures Valid()
      ensures var v := JudgeReset(old(Snapshot()), now, ctx, token, password.plain, formatOk);
              && oneTime == SpentBy(old(oneTime), v, Sha256(token), now)
              && users == UsersAfterReset(old(users), v, password)
              && history == HistoryAfterReset(old(history), v, ctx.tenant, password, now)
              && refresh == RefreshAfterReset(old(refresh), v, ctx.tenant, now)
              && reply == ResetReply(v)
    {
      var verdict := CheckReset(now, ctx, token, password.plain, formatOk);
      reply := ApplyReset(ctx, verdict, password, now);
    }

    method ChangeEmail(o: Owner, email: string, key: string) returns (refused: Option<AppError>)
      requires Valid()
      modifies this`users
      ensures Valid()
      ensures refused == if VisibleUser(old(users), o.tenant, o.user).None? then Some(NotFound)
                         else if LookupTaken(old(users), o.tenant, Lookup(email, key), o.user) then Some(Internal)
                         else None
      ensures users == if refused.None? then SetEmail(old(users), o.user, email, key) else old(users)
    {
      var user := VisibleUser(users, o.tenant, o.user);
      if user.None? {
        return Some(NotFound);
      }
      if exists id :: id in users && id != o.user && HasLookup(users, id, o.tenant, Lookup(email, key)) {
        return Some(Internal);
      }
      users := users[o.user := user.value.(email := Sealed(email, key), lookup := Lookup(email, key))];
      EmailKeepsUnique(old(users), o, email, key);
      return None;
    }

    /** The first half of an update: tenant key, address, history check. A failure after the address was
        changed undoes the change. */
    method BeginUpdate(cfg: Config, o: Owner, newEmail: Option<string>, newPassword: Option<NewPassword>)
      returns (r: Result<string, AppError>)
      requires Valid()
      modifies this`users
      ensures Valid()
      ensures r == UpdateCheck(old(Snapshot()), cfg, o, newEmail, newPassword)
      ensures users == if r.Ok? && newEmail.Some? then SetEmail(old(users), o.user, newEmail.value, r.value)
                       else old(users)
    {
      var key := TenantKey(tenants, cfg.wrapKey, o.tenant);
      if key.Err? {
        return Err(key.error);
      }
      var begun := users;
      if newEmail.Some? {
        var refused := ChangeEmail(o, newEmail.value, key.value);
        if refused.Some? {
          return Err(refused.value);
        }
      }
      if newPassword.Some? {
        var reused := CheckHistory(o, newPassword.value.plain, HistorySizeOf(historySize, o.tenant));
        if reused {
          users := begun;
          return Err(InvalidInput);
        }
      }
      if VisibleUser(users, o.tenant, o.user).None? {
        return Err(NotFound);
      }
      return Ok(key.value);
    }

    /** The second half: new password with its history row, and the active flag. */
    method FinishUpdate(o: Owner, newPassword: Option<NewPassword>, active: bool, now: Time)
      requires Valid() && o.user in users
      modifies this`users, this`history
      ensures Valid()
      ensures users == SetActive(if newPassword.Some? then SetPassword(old(users), o.user, newPassword.value)
                                 else old(users),
                                 o.user, active)
      ensures history == HistoryAfterUpdate(old(history), o, newPassword, now)
    {
      if newPassword.Some? {
        ReplacePassword(o, newPassword.value, now);
      }
      ghost var was := users;
      users := SetActive(users, o.user, active);
      assert forall i, t, l :: HasLookup(users, i, t, l) ==> HasLookup(was, i, t, l);
    }

    /** The transaction of an update. */
    method ChangeAccount(cfg: Config, now: Time, o: Owner, newEmail: Option<string>, newPassword: Option<NewPassword>,
                         active: bool)
      returns (reply: Reply)
      requires Valid()
      modifies this`users, this`history
      ensures Valid()
      ensures Outcome(Snapshot(), reply) == UpdateAccount(old(Snapshot()), cfg, now, o, newEmail, newPassword, active)
    {
      var checked := BeginUpdate(cfg, o, newEmail, newPassword);
      if checked.Err? {
        return Refused(checked.error);
      }
      FinishUpdate(o, newPassword, active, now);
      return Done;
    }

    method UpdateUser(cfg: Config, now: Time, headers: Headers, user: Uuid, newEmail: Option<string>,
                      newPassword: Option<NewPassword>, active: bool)
      returns (reply: Reply)
      requires Valid()
      modifies this`users, this`history
      ensures Valid()
      ensures Outcome(Snapshot(), reply)
              == UpdateUserSpec(old(Snapshot()), cfg, now, headers, user, newEmail, newPassword, active)
    {
      var who := CheckAdmin(cfg, now, headers, user);
      if who.Err? {
        return Refused(who.error);
      }
      reply := ChangeAccount(cfg, now, who.value, newEmail, newPassword, active);
    }

    // ── Revocation, rate limit, cleanup ──────────────────────────────────────

    method Logout(cfg: Config, now: Time, ctx: Ctx, bearer: Token, cookie: Option<string>, token: string)
      returns (reply: Reply)
      modifies this`jtis, this`refresh, this`sessions
      ensures Outcome(Snapshot(), reply) == LogoutSpec(old(Snapshot()), cfg, now, ctx, bearer, cookie, token)
    {
      var auth := Authenticate(cfg, now, ctx, bearer);
      if auth.Err? {
        return Refused(auth.error);
      }
      if auth.value.jti !in jtis {
        jtis := jtis[auth.value.jti := LogoutExpiry(cfg, now, bearer)];
      }
      var row := FindLive(refresh, ctx.tenant, Sha256(token), now);
      if row.Some? {
        if row.value.user == Subject(auth.value) {
          refresh := refresh[Sha256(token) := Revoked(row.value, now)];
        }
      }
      if cookie.Some? {
        sessions := sessions - {cookie.value};
      }
      return Done;
    }

    method TryRevokeAccess(cfg: Config, now: Time, caller: Claims, presented: Presented) returns (ok: bool)
      modifies this`jtis
      ensures ok == OwnAccessToken(cfg, now, caller, presented)
      ensures jtis == if !ok then old(jtis)
                      else
                        var c := ValidateAccess(presented.jwt, cfg.keys, now).value;
                        RevokeJti(old(jtis), c.jti, c.exp)
    {
      if !presented.JwtText? {
        return false;
      }
      var claims := ValidateAccess(presented.jwt, cfg.keys, now);
      if claims.None? || claims.value.sub != caller.sub {
        return false;
      }
      jtis := RevokeJti(jtis, claims.value.jti, claims.value.exp);
      return true;
    }

    method TryRevokeRefresh(now: Time, caller: Claims, presented: Presented)
      modifies this`refresh
      ensures refresh == RevokeOwnRefresh(old(refresh), now, caller, presented)
    {
      var callerId := Parse(caller.sub);
      if callerId.None? || !presented.OtherText? {
        return;
      }
      var h := Sha256(presented.text);
      if h in refresh && refresh[h].revokedAt.None? {
        if refresh[h].user != callerId.value {
          return;
        }
        refresh := refresh[h := Revoked(refresh[h], now)];
      }
    }

    method OauthRevoke(cfg: Config, now: Time, bearer: Token, presented: Presented, hintRefresh: bool)
      returns (reply: Reply)
      modifies this`jtis, this`refresh
      ensures Outcome(Snapshot(), reply) == OauthRevokeSpec(old(Snapshot()), cfg, now, bearer, presented, hintRefresh)
    {
      var caller := ValidateAccess(bearer, cfg.keys, now);
      if caller.None? {
        return Done;
      }
      if hintRefresh {
        TryRevokeRefresh(now, caller.value, presented);
      } else {
        var ok := TryRevokeAccess(cfg, now, caller.value, presented);
        if !ok {
          TryRevokeRefresh(now, caller.value, presented);
        }
      }
      return Done;
    }

    method RevokeAll(cfg: Config, now: Time, ctx: Ctx, bearer: Token) returns (reply: Reply)
      modifies this`refresh
      ensures Outcome(Snapshot(), reply) == RevokeAllSpec(old(Snapshot()), cfg, now, ctx, bearer)
    {
      var auth := Authenticate(cfg, now, ctx, bearer);
      if auth.Err? {
        return Refused(auth.error);
      }
      refresh := RevokeAllOf(refresh, ctx.tenant, Subject(auth.value), now);
      return Done;
    }

    method Introspect(cfg: Config, now: Time, headers: Headers, presented: Presented) returns (reply: Reply)
      ensures Outcome(Snapshot(), reply) == IntrospectSpec(Snapshot(), cfg, now, headers, presented)
    {
      if cfg.adminKey.None? {
        return Refused(NotFound);
      }
      var provided := if headers.adminKey.Some? then headers.adminKey.value else "";
      if provided != cfg.adminKey.value {
        return Refused(Unauthorized);
      }
      if !presented.JwtText? {
        return TokenInactive;
      }
      var claims := ValidateAccess(presented.jwt, cfg.keys, now);
      return if claims.Some? then TokenActive(claims.value) else TokenInactive;
    }

    method RateCheck(now: Time, key: string) returns (reply: Reply)
      modifies this`buckets
      ensures Outcome(Snapshot(), reply) == RateCheckSpec(old(Snapshot()), now, key)
    {
      var k := BucketKey(key, WindowOf(now));
      if k in buckets {
        if buckets[k].count >= MAX_COUNT {
          return Refused(Internal);
        }
        buckets := buckets[k := buckets[k].(count := buckets[k].count + 1)];
      } else {
        buckets := buckets[k := Bucket(1, now + 2 * WINDOW_SECS)];
      }
      return if buckets[k].count <= MAX_REQUESTS then Done else Refused(TooManyRequests);
    }

    method Cleanup(now: Time) returns (reply: Reply)
      modifies this`refresh, this`attempts, this`jtis, this`sessions, this`buckets
      ensures RefreshUnexpired(old(refresh), refresh, now) && JtisUnexpired(old(jtis), jtis, now)
      ensures SessionsUnexpired(old(sessions), sessions, now) && BucketsUnexpired(old(buckets), buckets, now)
      ensures AttemptsSince(old(attempts), attempts, now - 3600)
      ensures reply == Done
    {
      refresh := PurgeRefresh(refresh, now);
      attempts := KeptSince(attempts, now - ATTEMPT_RETENTION);
      jtis := PurgeJtis(jtis, now);
      sessions := PurgeSessions(sessions, now);
      buckets := Purge(buckets, now);
      KeptSinceIs(old(attempts), attempts, now - ATTEMPT_RETENTION);
      return Done;
    }

    // ── Serving ──────────────────────────────────────────────────────────────

    method HandleSignIn(cfg: Config, e: Event) returns (reply: Reply)
      requires Valid() && OfSignIn(e.request)
      modifies this`attempts, this`refresh, this`sessions
      ensures Valid()
      ensures Outcome(Snapshot(), reply) == SignInStep(old(Snapshot()), cfg, e)
    {
      match e.request
      case Login(ctx, email, plain, mint) => reply := Login(cfg, e.now, ctx, email, plain, mint);
      case LoginUniversal(email, plain, mint) => reply := LoginUniversal(cfg, e.now, email, plain, mint);
      case Refresh(ctx, token, mint) => reply := Refresh(cfg, e.now, ctx, token, mint);
    }

    method HandleGrant(cfg: Config, e: Event) returns (reply: Reply)
      requires Valid() && OfGrant(e.request)
      modifies this`codes, this`sessions, this`refresh
      ensures Valid()
      ensures Outcome(Snapshot(), reply) == GrantStep(old(Snapshot()), cfg, e)
    {
      match e.request
      case Authorize(credential, params, newCode) => reply := Authorize(cfg, e.now, credential, params, newCode);
      case Exchange(req, mint) => reply := Exchange(cfg, e.now, req, mint);
    }

    method HandleChallenge(cfg: Config, e: Event) returns (reply: Reply)
      requires Valid() && e.request.MfaChallenge?
      modifies this`backup, this`refresh, this`sessions
      ensures Valid()
      ensures Outcome(Snapshot(), reply) == MfaStep(old(Snapshot()), cfg, e)
    {
      var r := e.request;
      reply := MfaChallenge(cfg, e.now, r.ctx, r.mfaToken, r.totpCode, r.backupCode, r.mint);
    }

    method HandleMfa(cfg: Config, e: Event) returns (reply: Reply)
      requires Valid() && OfMfa(e.request)
      modifies this`totp, this`backup, this`refresh, this`sessions
      ensures Valid()
      ensures Outcome(Snapshot(), reply) == MfaStep(old(Snapshot()), cfg, e)
    {
      match e.request
      case MfaSetup(ctx, bearer, secret) => reply := MfaSetup(cfg, e.now, ctx, bearer, secret);
      case MfaConfirm(ctx, bearer, code) => reply := MfaConfirm(cfg, e.now, ctx, bearer, code);
      case MfaDisable(ctx, bearer, code) => reply := MfaDisable(cfg, e.now, ctx, bearer, code);
      case MfaBackupCodes(ctx, bearer, code, drawn) => reply := MfaBackupCodes(cfg, e.now, ctx, bearer, code, drawn);
      case MfaChallenge(_, _, _, _, _) => reply := HandleChallenge(cfg, e);
      case AdminDisableMfa(headers, user) => reply := AdminDisableMfa(cfg, e.now, headers, user);
    }

    method HandleReset(cfg: Config, e: Event) returns (reply: Reply)
      requires Valid() && e.request.ResetPassword?
      modifies this`users, this`oneTime, this`history, this`refresh
      ensures Valid()
      ensures Outcome(Snapshot(), reply) == AccountStep(old(Snapshot()), cfg, e)
    {
      var r := e.request;
      reply := ResetPassword(e.now, r.ctx, r.token, r.password, r.formatOk);
    }

    method HandleAccount(cfg: Config, e: Event) returns (reply: Reply)
      requires Valid() && OfAccount(e.request)
      modifies this`users, this`oneTime, this`history, this`refresh
      ensures Valid()
      ensures Outcome(Snapshot(), reply) == AccountStep(old(Snapshot()), cfg, e)
    {
      match e.request
      case Register(ctx, email, password, formatOk, id, otp) =>
        reply := Register(e.now, ctx, email, password, formatOk, id, otp);
      case VerifyEmail(ctx, email, otp) => reply := VerifyEmail(e.now, ctx, email, otp);
      case ForgotPassword(ctx, email, drawnToken) => reply := ForgotPassword(e.now, ctx, email, drawnToken);
      case ResetPassword(_, _, _, _) => reply := HandleReset(cfg, e);
      case UpdateUser(headers, user, newEmail, newPassword, active) =>
        reply := UpdateUser(cfg, e.now, headers, user, newEmail, newPassword, active);
    }

    method HandleRevocation(cfg: Config, e: Event) returns (reply: Reply)
      requires Valid() && OfRevocation(e.request)
      modifies this`jtis, this`refresh, this`sessions
      ensures Valid()
      ensures Outcome(Snapshot(), reply) == RevocationStep(old(Snapshot()), cfg, e)
    {
      match e.request
      case Logout(ctx, bearer, cookie, token) => reply := Logout(cfg, e.now, ctx, bearer, cookie, token);
      case OauthRevoke(bearer, presented, hint) => reply := OauthRevoke(cfg, e.now, bearer, presented, hint);
      case RevokeAll(ctx, bearer) => reply := RevokeAll(cfg, e.now, ctx, bearer);
      case Introspect(headers, presented) => reply := Introspect(cfg, e.now, headers, presented);
    }

    method HandleUpkeep(cfg: Config, e: Event) returns (reply: Reply)
      requires Valid() && OfUpkeep(e.request)
      modifies this`refresh, this`attempts, this`jtis, this`sessions, this`buckets
      ensures Valid()
      ensures Outcome(Snapshot(), reply) == UpkeepStep(old(Snapshot()), cfg, e)
    {
      match e.request
      case RateCheck(key) => reply := RateCheck(e.now, key);
      case Cleanup =>
        reply := Cleanup(e.now);
        ghost var before, after := old(Snapshot()), Snapshot();
        assert Cleaned(before, after, e.now);
        CleanupIs(before, after, e.now);
    }

    method Handle(cfg: Config, e: Event) returns (reply: Reply)
      requires Valid()
      modifies this
      ensures Valid()
      ensures Outcome(Snapshot(), reply) == Step(old(Snapshot()), cfg, e)
    {
      if OfSignIn(e.request) {
        reply := HandleSignIn(cfg, e);
      } else if OfGrant(e.request) {
        reply := HandleGrant(cfg, e);
      } else if OfMfa(e.request) {
        reply := HandleMfa(cfg, e);
      } else if OfAccount(e.request) {
        reply := HandleAccount(cfg, e);
      } else if OfRevocation(e.request) {
        reply := HandleRevocation(cfg, e);
      } else {
        reply := HandleUpkeep(cfg, e);
      }
    }

    /** Serving requests one after the other produces a run: what is proved of all runs is proved of
        this program. */
    method Serve(cfg: Config, events: seq<Event>) returns (replies: seq<Reply>, ghost run: Run)
      requires Valid()
      modifies this
      ensures Valid()
      ensures run.Valid() && run.cfg == cfg && run.events == events && run.replies == replies
      ensures run.states[0] == old(Snapshot()) && run.states[|events|] == Snapshot()
    {
      replies := [];
      ghost var states := [Snapshot()];
      for i := 0 to |events|
        invariant Valid() && |replies| == i && |states| == i + 1
        invariant states[0] == old(Snapshot()) && states[i] == Snapshot()
        invariant forall k :: 0 <= k < i ==> Step(states[k], cfg, events[k]) == Outcome(states[k + 1], replies[k])
      {
        var reply := Handle(cfg, events[i]);
        replies := replies + [reply];
        states := states + [Snapshot()];
      }
      run := Run(cfg, events, states, replies);
      forall k | 0 <= k < |events| ensures run.Stepped(k) {
        assert Step(states[k], cfg, events[k]) == Outcome(states[k + 1], replies[k]);
      }
    }
  }

  lemma EmailKeepsUnique(users: Users, o: Owner, email: string, key: string)
    requires UniqueLookups(users) && VisibleUser(users, o.tenant, o.user).Some?
    requires !LookupTaken(users, o.tenant, Lookup(email, key), o.user)
    ensures UniqueLookups(SetEmail(users, o.user, email, key))
  {
    var after := SetEmail(users, o.user, email, key);
    forall i, j, t, l | HasLookup(after, i, t, l) && HasLookup(after, j, t, l) ensures i == j {
      assert i != o.user ==> HasLookup(users, i, t, l);
      assert j != o.user ==> HasLookup(users, j, t, l);
    }
  }

  lemma {:induction false} FoundById(tenants: seq<Tenant>, t: Tenant)
    requires UniqueIds(tenants) && t in tenants
    ensures FindTenant(tenants, t.id) == Some(t)
  {
    if tenants[0] != t {
      var k :| 0 <= k < |tenants| && tenants[k] == t;
      assert tenants[0].id != tenants[k].id;
      assert t == tenants[1..][k - 1];
      FoundById(tenants[1..], t);
    }
  }
}
