/** What each request handler does to the database and what it answers, as functions of the
    database before, the clock, the request and the random values drawn for it. A handler that
    fails after its transaction began leaves the transaction's tables as they were. */
module Handlers {
  import opened Prelude
  import opened Uuids
  import opened Crypto
  import opened Jwt
  import opened AdminAuth
  import opened RateLimit
  import opened Schema

  datatype AppError =
    | Unauthorized | Forbidden | NotFound | Conflict | TooManyRequests
    | InvalidInput | Internal | CryptoError | TokenError

  /** `totp(secret, counter)` is None when the secret is not base32 text. */
  datatype Config = Config(keys: Keys, jwtMinutes: int, refreshDays: int, master: Option<Uuid>,
                           adminKey: Option<string>, wrapKey: string, upper: Fold,
                           totp: (string, int) -> Option<string>)

  /** The tenant the middleware resolved, with its decrypted data key. */
  datatype Ctx = Ctx(tenant: Uuid, key: string)

  /** Values drawn for a new credential, and what the role tables granted. */
  datatype Issuance = Issuance(jti: string, refresh: string, session: string,
                               realm: RealmAccess, resources: map<string, RealmAccess>)

  datatype Credential = Bearer(token: Token) | Cookie(session: string) | Anonymous

  datatype AuthorizeParams = AuthorizeParams(clientId: string, redirectUri: string, responseType: string,
                                             challenge: Challenge, challengeMethod: string)

  datatype TokenRequest = TokenRequest(code: Option<string>, redirectUri: Option<string>, clientId: string,
                                       clientSecret: Option<string>, verifier: Option<string>)

  /** The text in a revocation request: a JWT, or anything else. */
  datatype Presented = JwtText(jwt: Token) | OtherText(text: string)

  type TenCodes = s: seq<string> | |s| == BACKUP_CODE_COUNT witness seq(BACKUP_CODE_COUNT, _ => "")

  datatype NewPassword = NewPassword(plain: string, salt: nat)

  datatype Request =
    | Register(ctx: Ctx, email: string, password: NewPassword, formatOk: bool, id: Uuid, otp: string)
    | VerifyEmail(ctx: Ctx, email: string, otp: string)
    | Login(ctx: Ctx, email: string, plain: string, mint: Issuance)
    | LoginUniversal(email: string, plain: string, mint: Issuance)
    | Refresh(ctx: Ctx, token: string, mint: Issuance)
    | Authorize(credential: Credential, params: AuthorizeParams, newCode: string)
    | Exchange(req: TokenRequest, mint: Issuance)
    | MfaSetup(ctx: Ctx, bearer: Token, secret: string)
    | MfaConfirm(ctx: Ctx, bearer: Token, code: string)
    | MfaDisable(ctx: Ctx, bearer: Token, code: string)
    | MfaBackupCodes(ctx: Ctx, bearer: Token, code: string, drawn: TenCodes)
    | MfaChallenge(ctx: Ctx, mfaToken: Token, totpCode: Option<string>, backupCode: Option<string>, mint: Issuance)
    | AdminDisableMfa(headers: Headers, user: Uuid)
    | ForgotPassword(ctx: Ctx, email: string, drawnToken: string)
    | ResetPassword(ctx: Ctx, token: string, password: NewPassword, formatOk: bool)
    | UpdateUser(headers: Headers, user: Uuid, newEmail: Option<string>, newPassword: Option<NewPassword>,
                 active: bool)
    | Logout(ctx: Ctx, bearer: Token, cookie: Option<string>, refreshToken: string)
    | OauthRevoke(bearer: Token, presented: Presented, hintRefresh: bool)
    | RevokeAll(ctx: Ctx, bearer: Token)
    | Introspect(headers: Headers, presented: Presented)
    | RateCheck(key: string)
    | Cleanup

  datatype Event = Event(now: Time, request: Request)

  datatype Reply =
    | Refused(error: AppError)
    | Done
    | Tokens(access: Token, refresh: string, session: Option<string>)
    | MfaRequired(mfaToken: Token)
    | TenantChoice(tenants: seq<(string, string)>)
    | CodeIssued(code: string)
    | TotpPending(secret: string)
    | BackupIssued(codes: seq<string>)
    | TokenActive(claims: Claims)
    | TokenInactive

  datatype Outcome = Outcome(db: Db, reply: Reply)

  function Refuse(db: Db, e: AppError): Outcome { Outcome(db, Refused(e)) }

  // ── Shared pieces ──────────────────────────────────────────────────────────

  ghost predicate AccessShaped(t: Token) {
    exists c: Claims :: t.payload == ClaimsJson(c)
  }

  function AccessFor(cfg: Config, o: Owner, email: string, now: Time, minutes: int, mint: Issuance,
                     resources: map<string, RealmAccess>): (t: Token)
    ensures AccessShaped(t)
  {
    AccessToken(Claims(mint.jti, Text(o.user), Text(o.tenant), email, now, now + minutes * MINUTE,
                       mint.realm, resources), cfg.keys)
  }

  const MFA_MINUTES := 5

  function MfaFor(cfg: Config, o: Owner, now: Time): Token {
    MfaToken(MfaClaims(Text(o.user), Text(o.tenant), now, now + MFA_MINUTES * MINUTE, MFA_PURPOSE), cfg.keys)
  }

  function NewRefresh(o: Owner, now: Time, days: int): RefreshRow {
    RefreshRow(o.tenant, o.user, now + days * DAY, None)
  }

  const TOTP_STEP := 30

  /** Seconds since the epoch; a clock before it reads zero. */
  function SinceEpoch(now: Time): nat { if now < 0 then 0 else now }

  /** The step a reading falls into, after the cast to an unsigned 64-bit number. */
  function TotpCounter(reading: int): int {
    (if reading < 0 then reading + 0x1_0000_0000_0000_0000 else reading) / TOTP_STEP
  }

  predicate TotpMatches(cfg: Config, secret: string, code: string, now: Time) {
    || cfg.totp(secret, TotpCounter(SinceEpoch(now) - TOTP_STEP)) == Some(code)
    || cfg.totp(secret, TotpCounter(SinceEpoch(now))) == Some(code)
    || cfg.totp(secret, TotpCounter(SinceEpoch(now) + TOTP_STEP)) == Some(code)
  }

  predicate MfaEnabled(totp: map<Owner, TotpRow>, o: Owner) {
    o in totp && totp[o].enabled
  }

  /** The auth middleware: who presents this bearer token under this tenant. */
  function Authenticate(db: Db, cfg: Config, now: Time, ctx: Ctx, bearer: Token): Result<Claims, AppError> {
    match ValidateAccess(bearer, cfg.keys, now)
    case None => Err(TokenError)
    case Some(claims) =>
      if claims.jti in db.jtis then Err(Unauthorized)
      else if Parse(claims.sub).None? || Parse(claims.tid).None? then Err(TokenError)
      else if cfg.master != Parse(claims.tid) && Parse(claims.tid).value != ctx.tenant then Err(Unauthorized)
      else Ok(claims)
  }

  function Subject(claims: Claims): Uuid {
    if Parse(claims.sub).Some? then Parse(claims.sub).value else 0
  }

  // ── What no handler may do ─────────────────────────────────────────────────

  /** Accounts stay, in their tenant. */
  ghost predicate UsersGrow(before: Users, after: Users) {
    forall u :: u in before ==> u in after && after[u].tenant == before[u].tenant
  }

  /** The row of `h` is the one that was there, perhaps revoked meanwhile; a revocation stands. */
  predicate SameToken(before: RefreshTable, after: RefreshTable, h: Digest) {
    h in before && h in after
    && after[h].tenant == before[h].tenant && after[h].user == before[h].user
    && after[h].expiresAt == before[h].expiresAt
    && (before[h].revokedAt.Some? ==> after[h].revokedAt == before[h].revokedAt)
  }

  ghost predicate RowsOnlyRevoked(before: RefreshTable, after: RefreshTable) {
    forall h :: h in after ==> SameToken(before, after, h)
  }

  /** Rows are kept so, except that the minted token's row is stored for an account of its tenant. */
  ghost predicate RowsKept(db: Db, after: RefreshTable, mint: Issuance) {
    forall h :: h in after ==> SameToken(db.refresh, after, h) || StoredNew(db.users, after, h, mint)
  }

  predicate StoredNew(users: Users, after: RefreshTable, h: Digest, mint: Issuance) {
    h == Sha256(mint.refresh) && h in after && after[h].revokedAt.None?
    && VisibleUser(users, after[h].tenant, after[h].user).Some?
  }

  /** A one-time row stays, keeps its purpose and its expiry, and its use is never forgotten. */
  ghost predicate OneTimeKept(before: map<Digest, OneTime>, after: map<Digest, OneTime>) {
    forall h :: h in before ==>
      h in after && after[h] == before[h].(usedAt := after[h].usedAt)
      && (before[h].usedAt.Some? ==> after[h] == before[h])
  }

  /** A revoked id is forgotten only once its stored expiry has passed. */
  ghost predicate JtisStand(before: JtiTable, after: JtiTable, now: Time) {
    forall j :: j in before && before[j] >= now ==> j in after && after[j] == before[j]
  }

  /** Signed tokens leave only as access tokens, or, from the logins, as MFA tokens. */
  ghost predicate HandsOut(reply: Reply, login: bool) {
    (reply.Tokens? ==> AccessShaped(reply.access)) && (reply.MfaRequired? ==> login)
  }

  predicate IssuesNothing(reply: Reply) { !reply.Tokens? && !reply.MfaRequired? }

  // ── Issuing tokens to an account, if there is one to issue them to ─────────

  function WithRefresh(table: RefreshTable, who: Option<Owner>, mint: Issuance, now: Time, days: int)
    : (after: RefreshTable)
    ensures forall h :: h in after ==> SameToken(table, after, h) || (who.Some? && h == Sha256(mint.refresh))
    ensures who.Some? ==>
              Sha256(mint.refresh) in after && after[Sha256(mint.refresh)] == NewRefresh(who.value, now, days)
  {
    if who.None? then table else table[Sha256(mint.refresh) := NewRefresh(who.value, now, days)]
  }

  /** A session id is a primary key; a failed insert is swallowed and no id is returned. */
  function WithSession(sessions: SessionTable, who: Option<Owner>, mint: Issuance, now: Time, days: int): SessionTable {
    if who.None? || mint.session in sessions then sessions
    else sessions[mint.session := Session(who.value.tenant, who.value.user, now + days * DAY, now)]
  }

  function SessionReply(sessions: SessionTable, id: string): Option<string> {
    if id in sessions then None else Some(id)
  }

  /** Access token, refresh token and session for an account, under the tenant's settings. */
  function SignedIn(db: Db, cfg: Config, o: Owner, email: string, now: Time, mint: Issuance): (r: Reply)
    ensures HandsOut(r, false)
  {
    Tokens(AccessFor(cfg, o, email, now, SettingsOf(db.settings, o.tenant).accessMinutes, mint, map[]),
           mint.refresh, SessionReply(db.sessions, mint.session))
  }

  // ── Registration and e-mail verification ───────────────────────────────────

  function OtpHash(user: Uuid, otp: string): Digest { Sha256(Text(user) + ":" + otp) }

  ghost function RegisterCheck(db: Db, ctx: Ctx, email: string, formatOk: bool, id: Uuid): (r: Option<AppError>)
    ensures r.None? ==> id !in db.users
  {
    if !SettingsOf(db.settings, ctx.tenant).registration then Some(Forbidden)
    else if !formatOk then Some(InvalidInput)
    else if FindByLookup(db.users, ctx.tenant, Lookup(email, ctx.key)).Some? then Some(Conflict)
    else if id in db.users then Some(Internal)
    else None
  }

  function NewUser(ctx: Ctx, email: string, password: NewPassword): User {
    User(ctx.tenant, Lookup(email, ctx.key), Sealed(email, ctx.key), Argon2(password.plain, password.salt), true, false)
  }

  ghost function RegisterSpec(db: Db, now: Time, ctx: Ctx, email: string, password: NewPassword,
                              formatOk: bool, id: Uuid, otp: string): (o: Outcome)
    ensures o.db == db.(users := o.db.users, oneTime := o.db.oneTime)
    ensures UsersGrow(db.users, o.db.users)
    ensures OneTimeKept(db.oneTime, o.db.oneTime)
    ensures IssuesNothing(o.reply)
  {
    match RegisterCheck(db, ctx, email, formatOk, id)
    case Some(e) => Refuse(db, e)
    case None =>
      var h := OtpHash(id, otp);
      var verify := SettingsOf(db.settings, ctx.tenant).requireVerified;
      Outcome(db.(users := db.users[id := NewUser(ctx, email, password)],
                  oneTime := if !verify || h in db.oneTime then db.oneTime
                             else db.oneTime[h := OneTime(ctx.tenant, id, EmailVerification, now + 24 * HOUR, None)]),
              if verify && h in db.oneTime then Refused(Internal) else Done)
  }

  ghost function VerifyEmailSpec(db: Db, now: Time, ctx: Ctx, email: string, otp: string): (o: Outcome)
    ensures o.db == db.(users := o.db.users, oneTime := o.db.oneTime)
    ensures UsersGrow(db.users, o.db.users)
    ensures OneTimeKept(db.oneTime, o.db.oneTime)
    ensures IssuesNothing(o.reply)
  {
    match FindByLookup(db.users, ctx.tenant, Lookup(email, ctx.key))
    case None => Refuse(db, InvalidInput)
    case Some(id) =>
      var h := OtpHash(id, otp);
      if h !in db.oneTime || !db.oneTime[h].kind.EmailVerification? || db.oneTime[h].usedAt.Some?
         || db.oneTime[h].expiresAt < now
      then Refuse(db, InvalidInput)
      else Outcome(db.(oneTime := db.oneTime[h := db.oneTime[h].(usedAt := Some(now))],
                       users := db.users[id := db.users[id].(verified := true)]), Done)
  }

  // ── Login ──────────────────────────────────────────────────────────────────

  datatype LoginVerdict = Declined(error: AppError) | Mismatch | Verified(user: Uuid)

  /** What a login comes to before anything is issued: declined without a trace, a failure that counts
      towards the lockout, or a verified account. */
  ghost function JudgeLogin(db: Db, now: Time, ctx: Ctx, email: string, plain: string): (v: LoginVerdict)
    ensures v.Verified? ==> HasLookup(db.users, v.user, ctx.tenant, Lookup(email, ctx.key))
                            && db.users[v.user].active && VerifyPassword(plain, db.users[v.user].password)
    ensures Locked(db.settings, db.attempts, ctx.tenant, Lookup(email, ctx.key), now) ==> v == Declined(Unauthorized)
  {
    var lookup := Lookup(email, ctx.key);
    if Locked(db.settings, db.attempts, ctx.tenant, lookup, now) then Declined(Unauthorized)
    else
      match FindByLookup(db.users, ctx.tenant, lookup)
      case None => Mismatch
      case Some(id) =>
        var user := db.users[id];
        if !user.active then Declined(Unauthorized)
        else if SettingsOf(db.settings, ctx.tenant).requireVerified && !user.verified then Declined(InvalidInput)
        else if !VerifyPassword(plain, user.password) then Mismatch
        else if Open(user.email, ctx.key).None? then Declined(CryptoError)
        else Verified(id)
  }

  function AttemptsAfter(attempts: seq<Attempt>, t: Uuid, l: Lookup, now: Time, v: LoginVerdict): seq<Attempt> {
    match v
    case Declined(_) => attempts
    case Mismatch => attempts + [Attempt(t, l, now)]
    case Verified(_) => Cleared(attempts, t, l)
  }

  /** The account a login issues tokens to: a verified one without a second factor. */
  function LoginIssuesTo(totp: map<Owner, TotpRow>, t: Uuid, v: LoginVerdict): Option<Owner> {
    if v.Verified? && !MfaEnabled(totp, Owner(t, v.user)) then Some(Owner(t, v.user)) else None
  }

  function LoginReply(db: Db, cfg: Config, now: Time, t: Uuid, v: LoginVerdict, mint: Issuance): (r: Reply)
    requires v.Verified? ==> v.user in db.users
    ensures HandsOut(r, true)
  {
    match v
    case Declined(e) => Refused(e)
    case Mismatch => Refused(Unauthorized)
    case Verified(id) =>
      if MfaEnabled(db.totp, Owner(t, id)) then MfaRequired(MfaFor(cfg, Owner(t, id), now))
      else SignedIn(db, cfg, Owner(t, id), db.users[id].email.plain, now, mint)
  }

  ghost function LoginSpec(db: Db, cfg: Config, now: Time, ctx: Ctx, email: string, plain: string,
                           mint: Issuance): (o: Outcome)
    ensures o.db == db.(attempts := o.db.attempts, refresh := o.db.refresh, sessions := o.db.sessions)
    ensures RowsKept(db, o.db.refresh, mint)
    ensures HandsOut(o.reply, true)
  {
    var v := JudgeLogin(db, now, ctx, email, plain);
    var who := LoginIssuesTo(db.totp, ctx.tenant, v);
    var days := SettingsOf(db.settings, ctx.tenant).refreshDays;
    Outcome(db.(attempts := AttemptsAfter(db.attempts, ctx.tenant, Lookup(email, ctx.key), now, v),
                refresh := WithRefresh(db.refresh, who, mint, now, days),
                sessions := WithSession(db.sessions, who, mint, now, days)),
            LoginReply(db, cfg, now, ctx.tenant, v, mint))
  }

  ghost predicate HoldsEmail(users: Users, wrapKey: string, t: Tenant, email: string) {
    t.active && Open(t.dataKey, wrapKey).Some?
    && FindByLookup(users, t.id, Lookup(email, Open(t.dataKey, wrapKey).value)).Some?
  }

  /** The active tenants whose key decrypts and that know the address, in table order. */
  ghost function Holders(users: Users, wrapKey: string, tenants: seq<Tenant>, email: string): seq<Tenant> {
    if tenants == [] then []
    else Holders(users, wrapKey, tenants[..|tenants| - 1], email)
         + if HoldsEmail(users, wrapKey, tenants[|tenants| - 1], email) then [tenants[|tenants| - 1]] else []
  }

  function Labels(tenants: seq<Tenant>): (r: seq<(string, string)>)
    ensures |r| == |tenants|
  {
    seq(|tenants|, i requires 0 <= i < |tenants| => (tenants[i].slug, tenants[i].name))
  }

  /** What a tenant-less login resolves the address to. */
  datatype Resolution = Nowhere | Several(tenants: seq<Tenant>) | Unreadable | Within(ctx: Ctx)

  ghost function Resolve(users: Users, wrapKey: string, tenants: seq<Tenant>, email: string): Resolution {
    var found := Holders(users, wrapKey, tenants, email);
    if |found| == 0 then Nowhere
    else if |found| > 1 then Several(found)
    else
      match Open(found[0].dataKey, wrapKey)
      case None => Unreadable
      case Some(key) => Within(Ctx(found[0].id, key))
  }

  ghost function LoginUniversalSpec(db: Db, cfg: Config, now: Time, email: string, plain: string,
                                    mint: Issuance): (o: Outcome)
    ensures o.db == db.(attempts := o.db.attempts, refresh := o.db.refresh, sessions := o.db.sessions)
    ensures RowsKept(db, o.db.refresh, mint)
    ensures HandsOut(o.reply, true)
  {
    match Resolve(db.users, cfg.wrapKey, db.tenants, email)
    case Nowhere => Refuse(db, Unauthorized)
    case Several(found) => Outcome(db, TenantChoice(Labels(found)))
    case Unreadable => Refuse(db, CryptoError)
    case Within(ctx) => LoginSpec(db, cfg, now, ctx, email, plain, mint)
  }

  // ── Refresh ────────────────────────────────────────────────────────────────

  /** The account a refresh request will be served for, if it is served. */
  function RefreshAccount(db: Db, ctx: Ctx, token: string, now: Time): Result<Owner, AppError> {
    match FindLive(db.refresh, ctx.tenant, Sha256(token), now)
    case None => Err(Unauthorized)
    case Some(row) =>
      match VisibleUser(db.users, ctx.tenant, row.user)
      case None => Err(Unauthorized)
      case Some(user) =>
        if !user.active then Err(Unauthorized)
        else if Open(user.email, ctx.key).None? then Err(CryptoError)
        else Ok(Owner(ctx.tenant, row.user))
  }

  function RefreshSpec(db: Db, cfg: Config, now: Time, ctx: Ctx, token: string, mint: Issuance): (o: Outcome)
    ensures o.db == db.(refresh := o.db.refresh)
    ensures RowsKept(db, o.db.refresh, mint)
    ensures HandsOut(o.reply, false)
  {
    match RefreshAccount(db, ctx, token, now)
    case Err(e) => Refuse(db, e)
    case Ok(owner) =>
      var h := Sha256(token);
      Outcome(db.(refresh := db.refresh[h := Revoked(db.refresh[h], now)]
                                       [Sha256(mint.refresh) := NewRefresh(owner, now, cfg.refreshDays)]),
              Tokens(AccessFor(cfg, owner, db.users[owner.user].email.plain, now, cfg.jwtMinutes, mint, map[]),
                     mint.refresh, None))
  }

  // ── Authorization code grant ───────────────────────────────────────────────

  function Identify(db: Db, cfg: Config, now: Time, credential: Credential): Result<Owner, AppError> {
    match credential
    case Bearer(t) =>
      (match ValidateAccess(t, cfg.keys, now)
       case None => Err(TokenError)
       case Some(claims) =>
         if claims.jti in db.jtis then Err(Unauthorized)
         else if Parse(claims.tid).None? || Parse(claims.sub).None? then Err(TokenError)
         else Ok(Owner(Parse(claims.tid).value, Parse(claims.sub).value)))
    case Cookie(id) =>
      (match FindSession(db.sessions, id, now)
       case None => Err(Unauthorized)
       case Some(s) => Ok(Owner(s.tenant, s.user)))
    case Anonymous => Err(Unauthorized)
  }

  function VisibleClient(clients: map<string, Client>, t: Uuid, id: string): Option<Client> {
    if id in clients && clients[id].tenant == t && clients[id].active then Some(clients[id]) else None
  }

  const CODE_MINUTES := 10

  /** The checks on an authorization request of a known user. */
  function AuthorizeCheck(clients: map<string, Client>, codes: map<string, AuthCode>, owner: Owner,
                          p: AuthorizeParams, newCode: string): (r: Option<AppError>)
    ensures r.None? ==> newCode !in codes
  {
    if p.responseType != "code" || p.challengeMethod != "S256" || p.challenge == Literal("") then Some(InvalidInput)
    else
      match VisibleClient(clients, owner.tenant, p.clientId)
      case None => Some(NotFound)
      case Some(client) =>
        if p.redirectUri !in client.redirectUris then Some(InvalidInput)
        else if newCode in codes then Some(Internal)
        else None
  }

  function NewCode(owner: Owner, p: AuthorizeParams, now: Time): AuthCode {
    AuthCode(owner.tenant, owner.user, p.clientId, p.redirectUri, p.challenge, now + CODE_MINUTES * MINUTE, None)
  }

  function CodesAfter(codes: map<string, AuthCode>, refused: Option<AppError>, newCode: string, owner: Owner,
                      p: AuthorizeParams, now: Time): map<string, AuthCode> {
    if refused.Some? then codes else codes[newCode := NewCode(owner, p, now)]
  }

  function SessionsSeen(sessions: SessionTable, credential: Credential, now: Time): SessionTable {
    if credential.Cookie? then TouchSession(sessions, credential.session, now) else sessions
  }

  function AuthorizeSpec(db: Db, cfg: Config, now: Time, credential: Credential, p: AuthorizeParams,
                         newCode: string): (o: Outcome)
    ensures o.db == db.(codes := o.db.codes, sessions := o.db.sessions)
    ensures IssuesNothing(o.reply)
  {
    match Identify(db, cfg, now, credential)
    case Err(e) => Refuse(db, e)
    case Ok(owner) =>
      var r := AuthorizeCheck(db.clients, db.codes, owner, p, newCode);
      Outcome(db.(sessions := SessionsSeen(db.sessions, credential, now),
                  codes := CodesAfter(db.codes, r, newCode, owner, p, now)),
              if r.Some? then Refused(r.value) else CodeIssued(newCode))
  }

  /** The checks on the code itself: present, unexpired, unused, same redirect, PKCE S256. */
  function RedeemableCode(codes: map<string, AuthCode>, now: Time, req: TokenRequest): (r: Option<AuthCode>)
    ensures r.Some? ==> req.code.Some? && req.code.value in codes && codes[req.code.value] == r.value
  {
    if req.code.None? || req.redirectUri.None? || req.verifier.None? || req.code.value !in codes then None
    else
      var row := codes[req.code.value];
      if row.expiresAt < now || row.usedAt.Some? || row.redirectUri != req.redirectUri.value
         || S256(req.verifier.value) != row.challenge
      then None else Some(row)
  }

  /** The checks on the client: active in the code's tenant, the one the code was issued to,
      and, if confidential, in possession of its secret. */
  function AuthenticClient(clients: map<string, Client>, row: AuthCode, req: TokenRequest): (r: Option<Client>)
    ensures r.Some? ==> req.clientId in clients && r.value == clients[req.clientId]
  {
    match VisibleClient(clients, row.tenant, req.clientId)
    case None => None
    case Some(client) =>
      if req.clientId != row.clientId then None
      else if client.confidential
              && (req.clientSecret.None? || Sha256(req.clientSecret.value) != client.secretHash)
      then None else Some(client)
  }

  /** The data key of an active tenant. */
  function TenantKey(tenants: seq<Tenant>, wrapKey: string, t: Uuid): Result<string, AppError> {
    match FindTenant(tenants, t)
    case None => Err(NotFound)
    case Some(row) =>
      if !row.active then Err(Unauthorized)
      else if Open(row.dataKey, wrapKey).None? then Err(CryptoError)
      else Ok(row.dataKey.plain)
  }

  /** Every check a code exchange makes before it issues tokens, in order. */
  function ExchangeCheck(db: Db, cfg: Config, now: Time, req: TokenRequest): (r: Result<AuthCode, AppError>)
    ensures r.Ok? ==> RedeemableCode(db.codes, now, req) == Some(r.value)
                      && AuthenticClient(db.clients, r.value, req).Some?
                      && VisibleUser(db.users, r.value.tenant, r.value.user).Some?
  {
    match RedeemableCode(db.codes, now, req)
    case None => Err(InvalidInput)
    case Some(row) =>
      if AuthenticClient(db.clients, row, req).None? then Err(Unauthorized)
      else
        match TenantKey(db.tenants, cfg.wrapKey, row.tenant)
        case Err(e) => Err(e)
        case Ok(key) =>
          match VisibleUser(db.users, row.tenant, row.user)
          case None => Err(NotFound)
          case Some(user) => if Open(user.email, key).None? then Err(CryptoError) else Ok(row)
  }

  function RefreshDaysOf(cfg: Config, client: Client): int {
    if client.refreshDays.Some? then client.refreshDays.value else cfg.refreshDays
  }

  function ExchangeReply(cfg: Config, now: Time, row: AuthCode, client: Client, email: string, mint: Issuance)
    : (r: Reply)
    ensures HandsOut(r, false)
  {
    var minutes := if client.accessMinutes.Some? then client.accessMinutes.value else cfg.jwtMinutes;
    Tokens(AccessFor(cfg, Owner(row.tenant, row.user), email, now, minutes, mint, mint.resources), mint.refresh, None)
  }

  function MarkUsed(codes: map<string, AuthCode>, code: string, now: Time): map<string, AuthCode>
    requires code in codes
  {
    codes[code := codes[code].(usedAt := Some(now))]
  }

  function ExchangeSpec(db: Db, cfg: Config, now: Time, req: TokenRequest, mint: Issuance): (o: Outcome)
    ensures o.db == db.(codes := o.db.codes, refresh := o.db.refresh)
    ensures RowsKept(db, o.db.refresh, mint)
    ensures HandsOut(o.reply, false)
  {
    match ExchangeCheck(db, cfg, now, req)
    case Err(e) => Refuse(db, e)
    case Ok(row) =>
      var client := db.clients[req.clientId];
      Outcome(db.(codes := MarkUsed(db.codes, req.code.value, now),
                  refresh := WithRefresh(db.refresh, Some(Owner(row.tenant, row.user)), mint, now,
                                         RefreshDaysOf(cfg, client))),
              ExchangeReply(cfg, now, row, client, db.users[row.user].email.plain, mint))
  }

  // ── MFA ────────────────────────────────────────────────────────────────────

  function SetupCheck(db: Db, cfg: Config, now: Time, ctx: Ctx, bearer: Token): Result<Owner, AppError> {
    match Authenticate(db, cfg, now, ctx, bearer)
    case Err(e) => Err(e)
    case Ok(claims) =>
      match VisibleUser(db.users, ctx.tenant, Subject(claims))
      case None => Err(NotFound)
      case Some(user) =>
        if Open(user.email, ctx.key).None? then Err(CryptoError) else Ok(Owner(ctx.tenant, Subject(claims)))
  }

  /** Whatever the account had, enabled or not, gives way to the new pending secret. */
  function MfaSetupSpec(db: Db, cfg: Config, now: Time, ctx: Ctx, bearer: Token, secret: string): (o: Outcome)
    ensures o.db == db.(totp := o.db.totp)
    ensures IssuesNothing(o.reply)
  {
    match SetupCheck(db, cfg, now, ctx, bearer)
    case Err(e) => Refuse(db, e)
    case Ok(o) => Outcome(db.(totp := db.totp[o := TotpRow(Sealed(secret, ctx.key), false)]), TotpPending(secret))
  }

  /** The account whose authenticator, pending or enabled, produced `code`, for a signed-in user. */
  function ConfirmCheck(db: Db, cfg: Config, now: Time, ctx: Ctx, bearer: Token, code: string)
    : (r: Result<Owner, AppError>)
    ensures r.Ok? ==> r.value in db.totp
  {
    match Authenticate(db, cfg, now, ctx, bearer)
    case Err(e) => Err(e)
    case Ok(claims) =>
      var o := Owner(ctx.tenant, Subject(claims));
      if o !in db.totp then Err(NotFound)
      else
        match Open(db.totp[o].secret, ctx.key)
        case None => Err(CryptoError)
        case Some(secret) => if TotpMatches(cfg, secret, code, now) then Ok(o) else Err(Unauthorized)
  }

  function MfaConfirmSpec(db: Db, cfg: Config, now: Time, ctx: Ctx, bearer: Token, code: string): (o: Outcome)
    ensures o.db == db.(totp := o.db.totp)
    ensures IssuesNothing(o.reply)
  {
    match ConfirmCheck(db, cfg, now, ctx, bearer, code)
    case Err(e) => Refuse(db, e)
    case Ok(o) => Outcome(db.(totp := db.totp[o := db.totp[o].(enabled := true)]), Done)
  }

  /** The account whose enabled authenticator produced `code`, for a signed-in user. */
  function Reauthenticate(db: Db, cfg: Config, now: Time, ctx: Ctx, bearer: Token, code: string)
    : Result<Owner, AppError>
  {
    match Authenticate(db, cfg, now, ctx, bearer)
    case Err(e) => Err(e)
    case Ok(claims) =>
      var o := Owner(ctx.tenant, Subject(claims));
      if !MfaEnabled(db.totp, o) then Err(NotFound)
      else
        match Open(db.totp[o].secret, ctx.key)
        case None => Err(CryptoError)
        case Some(secret) => if TotpMatches(cfg, secret, code, now) then Ok(o) else Err(Unauthorized)
  }

  /** The account an administrative request names, if its sender may act there. */
  function AdminAccount(cfg: Config, now: Time, headers: Headers, user: Uuid): Result<Owner, AppError> {
    if RequireAdmin(headers, AdminConfig(cfg.keys, cfg.adminKey, cfg.master), now).Denied? then Err(Unauthorized)
    else
      match HeaderTenant(headers)
      case None => Err(InvalidInput)
      case Some(t) => Ok(Owner(t, user))
  }

  function WithoutMfa(db: Db, account: Owner): (o: Outcome)
    ensures o.db == db.(totp := o.db.totp, backup := o.db.backup)
    ensures IssuesNothing(o.reply)
  {
    Outcome(db.(totp := db.totp - {account}, backup := WithoutBackups(db.backup, account)), Done)
  }

  function AdminDisableMfaSpec(db: Db, cfg: Config, now: Time, headers: Headers, user: Uuid): (o: Outcome)
    ensures o.db == db.(totp := o.db.totp, backup := o.db.backup)
    ensures IssuesNothing(o.reply)
  {
    match AdminAccount(cfg, now, headers, user)
    case Err(e) => Refuse(db, e)
    case Ok(account) => WithoutMfa(db, account)
  }

  function MfaDisableSpec(db: Db, cfg: Config, now: Time, ctx: Ctx, bearer: Token, code: string): (o: Outcome)
    ensures o.db == db.(totp := o.db.totp, backup := o.db.backup)
    ensures IssuesNothing(o.reply)
  {
    match Reauthenticate(db, cfg, now, ctx, bearer, code)
    case Err(e) => Refuse(db, e)
    case Ok(account) => WithoutMfa(db, account)
  }

  function MfaBackupCodesSpec(db: Db, cfg: Config, now: Time, ctx: Ctx, bearer: Token, code: string,
                              drawn: TenCodes): (o: Outcome)
    ensures o.db == db.(backup := o.db.backup)
    ensures IssuesNothing(o.reply)
  {
    match Reauthenticate(db, cfg, now, ctx, bearer, code)
    case Err(e) => Refuse(db, e)
    case Ok(o) => Outcome(db.(backup := WithoutBackups(db.backup, o) + BackupRows(cfg.upper, drawn, o)),
                          BackupIssued(drawn))
  }

  function Challenged(cfg: Config, now: Time, ctx: Ctx, mfaToken: Token): Option<Owner> {
    match VerifyMfa(mfaToken, cfg.keys, now)
    case None => None
    case Some(claims) =>
      if Parse(claims.sub).None? || Parse(claims.tid) != Some(ctx.tenant) then None
      else Some(Owner(ctx.tenant, Parse(claims.sub).value))
  }

  /** Only a token that neither of two secrets can read is an error of the token itself. */
  function ChallengeError(cfg: Config, now: Time, mfaToken: Token): AppError {
    if cfg.keys.previous.Some? && DecodeMfa(mfaToken, cfg.keys.secret, cfg.keys.leeway, now).None?
       && DecodeMfa(mfaToken, cfg.keys.previous.value, cfg.keys.leeway, now).None?
    then TokenError else Unauthorized
  }

  function RedeemBackup(upper: Fold, rows: seq<BackupRow>, o: Owner, code: string, now: Time): seq<BackupRow> {
    var i := FindBackup(rows, o, HashBackup(upper, code));
    if i < |rows| then rows[i := rows[i].(usedAt := Some(now))] else rows
  }

  datatype Factor = Proved(rows: seq<BackupRow>) | Failed | Undecryptable

  /** The second factor of a challenge: a TOTP code if one is given, else a backup code,
      with the backup table after it. */
  function SecondFactor(db: Db, cfg: Config, now: Time, ctx: Ctx, o: Owner,
                        totpCode: Option<string>, backupCode: Option<string>): Factor
    requires o in db.totp
  {
    if totpCode.Some? then
      match Open(db.totp[o].secret, ctx.key)
      case None => Undecryptable
      case Some(secret) => if TotpMatches(cfg, secret, totpCode.value, now) then Proved(db.backup) else Failed
    else if backupCode.Some? && FindBackup(db.backup, o, HashBackup(cfg.upper, backupCode.value)) < |db.backup|
    then Proved(RedeemBackup(cfg.upper, db.backup, o, backupCode.value, now))
    else Failed
  }

  /** A challenge is rejected, rejected at the cost of its backup code, or passed. */
  datatype ChallengeVerdict =
    | Rejected(error: AppError) | Inactive(left: seq<BackupRow>) | Passed(account: Owner, rows: seq<BackupRow>)

  function JudgeChallenge(db: Db, cfg: Config, now: Time, ctx: Ctx, mfaToken: Token,
                          totpCode: Option<string>, backupCode: Option<string>): (v: ChallengeVerdict)
    ensures v.Passed? ==> Challenged(cfg, now, ctx, mfaToken) == Some(v.account)
                          && v.account.tenant == ctx.tenant
                          && VisibleUser(db.users, ctx.tenant, v.account.user).Some?
                          && db.users[v.account.user].active
  {
    match Challenged(cfg, now, ctx, mfaToken)
    case None => Rejected(ChallengeError(cfg, now, mfaToken))
    case Some(o) =>
      if !MfaEnabled(db.totp, o) then Rejected(Unauthorized)
      else
        match SecondFactor(db, cfg, now, ctx, o, totpCode, backupCode)
        case Undecryptable => Rejected(CryptoError)
        case Failed => Rejected(Unauthorized)
        case Proved(rows) =>
          match VisibleUser(db.users, ctx.tenant, o.user)
          case None => Rejected(Unauthorized)
          case Some(user) =>
            if !user.active then Inactive(rows)
            else if Open(user.email, ctx.key).None? then Rejected(CryptoError)
            else Passed(o, rows)
  }

  function BackupAfter(rows: seq<BackupRow>, v: ChallengeVerdict): seq<BackupRow> {
    match v
    case Rejected(_) => rows
    case Inactive(left) => left
    case Passed(_, left) => left
  }

  function ChallengeIssuesTo(v: ChallengeVerdict): Option<Owner> {
    if v.Passed? then Some(v.account) else None
  }

  function ChallengeReply(db: Db, cfg: Config, now: Time, v: ChallengeVerdict, mint: Issuance): (r: Reply)
    requires v.Passed? ==> v.account.user in db.users
    ensures HandsOut(r, false)
  {
    match v
    case Rejected(e) => Refused(e)
    case Inactive(_) => Refused(Unauthorized)
    case Passed(o, _) => SignedIn(db, cfg, o, db.users[o.user].email.plain, now, mint)
  }

  function MfaChallengeSpec(db: Db, cfg: Config, now: Time, ctx: Ctx, mfaToken: Token,
                            totpCode: Option<string>, backupCode: Option<string>, mint: Issuance): (o: Outcome)
    ensures o.db == db.(backup := o.db.backup, refresh := o.db.refresh, sessions := o.db.sessions)
    ensures RowsKept(db, o.db.refresh, mint)
    ensures HandsOut(o.reply, false)
  {
    var v := JudgeChallenge(db, cfg, now, ctx, mfaToken, totpCode, backupCode);
    var who := ChallengeIssuesTo(v);
    var days := SettingsOf(db.settings, ctx.tenant).refreshDays;
    Outcome(db.(backup := BackupAfter(db.backup, v),
                refresh := WithRefresh(db.refresh, who, mint, now, days),
                sessions := WithSession(db.sessions, who, mint, now, days)),
            ChallengeReply(db, cfg, now, v, mint))
  }

  // ── Passwords ──────────────────────────────────────────────────────────────

  const RESET_MINUTES := 60

  ghost function ForgotPasswordSpec(db: Db, now: Time, ctx: Ctx, email: string, drawnToken: string): (o: Outcome)
    ensures o.db == db.(oneTime := o.db.oneTime)
    ensures OneTimeKept(db.oneTime, o.db.oneTime)
    ensures IssuesNothing(o.reply)
  {
    match FindByLookup(db.users, ctx.tenant, Lookup(email, ctx.key))
    case None => Outcome(db, Done)
    case Some(id) =>
      if !db.users[id].active then Outcome(db, Done)
      else if Sha256(drawnToken) in db.oneTime then Refuse(db, Internal)
      else Outcome(db.(oneTime := db.oneTime[Sha256(drawnToken) :=
                     OneTime(ctx.tenant, id, PasswordReset, now + RESET_MINUTES * MINUTE, None)]), Done)
  }

  function HashNew(p: NewPassword): PasswordHash { Argon2(p.plain, p.salt) }

  function SetPassword(users: Users, u: Uuid, p: NewPassword): (after: Users)
    requires u in users
    ensures after.Keys == users.Keys && UsersGrow(users, after)
  {
    users[u := users[u].(password := HashNew(p))]
  }

  function Remembered(rows: seq<HistoryRow>, owner: Owner, p: NewPassword, now: Time): seq<HistoryRow> {
    rows + [HistoryRow(owner.tenant, owner.user, HashNew(p), now)]
  }

  datatype ResetVerdict = TokenRefused(error: AppError) | SpentInVain(error: AppError) | Accepted(user: Uuid)

  /** The token is spent before the new password is looked at. */
  function JudgeReset(db: Db, now: Time, ctx: Ctx, token: string, plain: string, formatOk: bool): (v: ResetVerdict)
    ensures !v.TokenRefused? ==> Sha256(token) in db.oneTime && db.oneTime[Sha256(token)].usedAt.None?
    ensures v.Accepted? ==> VisibleUser(db.users, ctx.tenant, v.user).Some?
  {
    var h := Sha256(token);
    if h !in db.oneTime || !db.oneTime[h].kind.PasswordReset? then TokenRefused(NotFound)
    else
      var row := db.oneTime[h];
      if row.usedAt.Some? || row.expiresAt < now then TokenRefused(InvalidInput)
      else if row.tenant != ctx.tenant then SpentInVain(Unauthorized)
      else if !formatOk then SpentInVain(InvalidInput)
      else if Reuses(db.history, Owner(ctx.tenant, row.user), plain, HistorySizeOf(db.historySize, ctx.tenant))
      then SpentInVain(InvalidInput)
      else if VisibleUser(db.users, ctx.tenant, row.user).None? then SpentInVain(NotFound)
      else Accepted(row.user)
  }

  function Spend(table: map<Digest, OneTime>, h: Digest, now: Time): map<Digest, OneTime>
    requires h in table
  {
    table[h := table[h].(usedAt := Some(now))]
  }

  function SpentBy(table: map<Digest, OneTime>, v: ResetVerdict, h: Digest, now: Time): (after: map<Digest, OneTime>)
    requires !v.TokenRefused? ==> h in table && table[h].usedAt.None?
    ensures OneTimeKept(table, after)
  {
    if v.TokenRefused? then table else Spend(table, h, now)
  }

  function UsersAfterReset(users: Users, v: ResetVerdict, p: NewPassword): (after: Users)
    requires v.Accepted? ==> v.user in users
    ensures UsersGrow(users, after)
  {
    if v.Accepted? then SetPassword(users, v.user, p) else users
  }

  function HistoryAfterReset(rows: seq<HistoryRow>, v: ResetVerdict, t: Uuid, p: NewPassword, now: Time)
    : seq<HistoryRow>
  {
    if v.Accepted? then Remembered(rows, Owner(t, v.user), p, now) else rows
  }

  function RefreshAfterReset(table: RefreshTable, v: ResetVerdict, t: Uuid, now: Time): (after: RefreshTable)
    ensures RowsOnlyRevoked(table, after)
  {
    if v.Accepted? then RevokeAllOf(table, t, v.user, now) else table
  }

  function ResetReply(v: ResetVerdict): (r: Reply)
    ensures IssuesNothing(r)
  {
    if v.Accepted? then Done else Refused(v.error)
  }

  function ResetPasswordSpec(db: Db, now: Time, ctx: Ctx, token: string, password: NewPassword,
                             formatOk: bool): (o: Outcome)
    ensures o.db == db.(oneTime := o.db.oneTime, users := o.db.users, history := o.db.history, refresh := o.db.refresh)
    ensures UsersGrow(db.users, o.db.users)
    ensures RowsOnlyRevoked(db.refresh, o.db.refresh)
    ensures OneTimeKept(db.oneTime, o.db.oneTime)
    ensures IssuesNothing(o.reply)
  {
    var v := JudgeReset(db, now, ctx, token, password.plain, formatOk);
    Outcome(db.(oneTime := SpentBy(db.oneTime, v, Sha256(token), now),
                users := UsersAfterReset(db.users, v, password),
                history := HistoryAfterReset(db.history, v, ctx.tenant, password, now),
                refresh := RefreshAfterReset(db.refresh, v, ctx.tenant, now)),
            ResetReply(v))
  }

  /** UNIQUE(tenant_id, email_lookup), apart from the row being written. */
  predicate LookupTaken(users: Users, t: Uuid, l: Lookup, u: Uuid) {
    exists id :: id in users && id != u && HasLookup(users, id, t, l)
  }

  /** The checks of an update, in order; they end with the tenant's data key. */
  function UpdateCheck(db: Db, cfg: Config, account: Owner, email: Option<string>, newPassword: Option<NewPassword>)
    : (r: Result<string, AppError>)
    ensures r.Ok? ==> VisibleUser(db.users, account.tenant, account.user).Some?
    ensures r.Ok? && email.Some? ==> !LookupTaken(db.users, account.tenant, Lookup(email.value, r.value), account.user)
  {
    match TenantKey(db.tenants, cfg.wrapKey, account.tenant)
    case Err(e) => Err(e)
    case Ok(key) =>
      var known := VisibleUser(db.users, account.tenant, account.user).Some?;
      if email.Some? && !known then Err(NotFound)
      else if email.Some? && LookupTaken(db.users, account.tenant, Lookup(email.value, key), account.user)
        then Err(Internal)
      else if newPassword.Some?
              && Reuses(db.history, account, newPassword.value.plain, HistorySizeOf(db.historySize, account.tenant))
      then Err(InvalidInput)
      else if !known then Err(NotFound)
      else Ok(key)
  }

  function SetEmail(users: Users, u: Uuid, email: string, key: string): (after: Users)
    requires u in users
    ensures after.Keys == users.Keys && UsersGrow(users, after)
  {
    users[u := users[u].(email := Sealed(email, key), lookup := Lookup(email, key))]
  }

  function SetActive(users: Users, u: Uuid, active: bool): (after: Users)
    requires u in users
    ensures after.Keys == users.Keys && UsersGrow(users, after)
  {
    users[u := users[u].(active := active)]
  }

  function UsersAfterUpdate(users: Users, u: Uuid, key: string, email: Option<string>, p: Option<NewPassword>,
                            active: bool): (after: Users)
    requires u in users
    ensures UsersGrow(users, after)
  {
    var addressed := if email.Some? then SetEmail(users, u, email.value, key) else users;
    SetActive(if p.Some? then SetPassword(addressed, u, p.value) else addressed, u, active)
  }

  function HistoryAfterUpdate(rows: seq<HistoryRow>, o: Owner, p: Option<NewPassword>, now: Time): seq<HistoryRow> {
    if p.Some? then Remembered(rows, o, p.value, now) else rows
  }

  function UpdateAccount(db: Db, cfg: Config, now: Time, account: Owner, email: Option<string>,
                         newPassword: Option<NewPassword>, active: bool): (o: Outcome)
    ensures o.db == db.(users := o.db.users, history := o.db.history)
    ensures UsersGrow(db.users, o.db.users)
    ensures IssuesNothing(o.reply)
  {
    match UpdateCheck(db, cfg, account, email, newPassword)
    case Err(e) => Refuse(db, e)
    case Ok(key) =>
      Outcome(db.(users := UsersAfterUpdate(db.users, account.user, key, email, newPassword, active),
                  history := HistoryAfterUpdate(db.history, account, newPassword, now)), Done)
  }

  function UpdateUserSpec(db: Db, cfg: Config, now: Time, headers: Headers, user: Uuid, email: Option<string>,
                          newPassword: Option<NewPassword>, active: bool): (o: Outcome)
    ensures o.db == db.(users := o.db.users, history := o.db.history)
    ensures UsersGrow(db.users, o.db.users)
    ensures IssuesNothing(o.reply)
  {
    match AdminAccount(cfg, now, headers, user)
    case Err(e) => Refuse(db, e)
    case Ok(account) => UpdateAccount(db, cfg, now, account, email, newPassword, active)
  }

  // ── Revocation ─────────────────────────────────────────────────────────────

  /** The expiry logout stores beside a revoked id: the token's own, or the epoch when the
      current secret alone cannot read it. */
  function LogoutExpiry(cfg: Config, now: Time, bearer: Token): Time {
    match DecodeAccess(bearer, cfg.keys.secret, cfg.keys.leeway, now)
    case None => 0
    case Some(claims) => claims.exp
  }

  function RevokeShown(table: RefreshTable, t: Uuid, user: Uuid, token: string, now: Time): (after: RefreshTable)
    ensures RowsOnlyRevoked(table, after)
  {
    var row := FindLive(table, t, Sha256(token), now);
    if row.Some? && row.value.user == user then table[Sha256(token) := Revoked(row.value, now)] else table
  }

  function DropSession(sessions: SessionTable, cookie: Option<string>): SessionTable {
    if cookie.Some? then sessions - {cookie.value} else sessions
  }

  function LogoutSpec(db: Db, cfg: Config, now: Time, ctx: Ctx, bearer: Token, cookie: Option<string>,
                      refreshToken: string): (o: Outcome)
    ensures o.db == db.(jtis := o.db.jtis, refresh := o.db.refresh, sessions := o.db.sessions)
    ensures JtisStand(db.jtis, o.db.jtis, now)
    ensures RowsOnlyRevoked(db.refresh, o.db.refresh)
    ensures IssuesNothing(o.reply)
  {
    match Authenticate(db, cfg, now, ctx, bearer)
    case Err(e) => Refuse(db, e)
    case Ok(claims) =>
      Outcome(db.(jtis := RevokeJti(db.jtis, claims.jti, LogoutExpiry(cfg, now, bearer)),
                  refresh := RevokeShown(db.refresh, ctx.tenant, Subject(claims), refreshToken, now),
                  sessions := DropSession(db.sessions, cookie)), Done)
  }

  /** Whether revoking as an access token succeeds for this caller. */
  predicate OwnAccessToken(cfg: Config, now: Time, caller: Claims, presented: Presented) {
    presented.JwtText? && ValidateAccess(presented.jwt, cfg.keys, now).Some?
    && ValidateAccess(presented.jwt, cfg.keys, now).value.sub == caller.sub
  }

  function RevokeOwnRefresh(table: RefreshTable, now: Time, caller: Claims, presented: Presented): RefreshTable {
    if presented.OtherText? && Sha256(presented.text) in table
       && table[Sha256(presented.text)].revokedAt.None?
       && Parse(caller.sub) == Some(table[Sha256(presented.text)].user)
    then table[Sha256(presented.text) := Revoked(table[Sha256(presented.text)], now)]
    else table
  }

  /** Errors are swallowed: the answer never tells whether anything was revoked. */
  function OauthRevokeSpec(db: Db, cfg: Config, now: Time, bearer: Token, presented: Presented,
                           hintRefresh: bool): (o: Outcome)
    ensures o.db == db.(jtis := o.db.jtis, refresh := o.db.refresh)
    ensures JtisStand(db.jtis, o.db.jtis, now)
    ensures RowsOnlyRevoked(db.refresh, o.db.refresh)
    ensures IssuesNothing(o.reply)
  {
    match ValidateAccess(bearer, cfg.keys, now)
    case None => Outcome(db, Done)
    case Some(caller) =>
      if !hintRefresh && OwnAccessToken(cfg, now, caller, presented) then
        var c := ValidateAccess(presented.jwt, cfg.keys, now).value;
        Outcome(db.(jtis := RevokeJti(db.jtis, c.jti, c.exp)), Done)
      else Outcome(db.(refresh := RevokeOwnRefresh(db.refresh, now, caller, presented)), Done)
  }

  function RevokeAllSpec(db: Db, cfg: Config, now: Time, ctx: Ctx, bearer: Token): (o: Outcome)
    ensures o.db == db.(refresh := o.db.refresh)
    ensures RowsOnlyRevoked(db.refresh, o.db.refresh)
    ensures IssuesNothing(o.reply)
  {
    match Authenticate(db, cfg, now, ctx, bearer)
    case Err(e) => Refuse(db, e)
    case Ok(claims) =>
      Outcome(db.(refresh := RevokeAllOf(db.refresh, ctx.tenant, Subject(claims), now)), Done)
  }

  /** Only the admin key opens introspection, and only the token itself is looked at. */
  function IntrospectSpec(db: Db, cfg: Config, now: Time, headers: Headers, presented: Presented): (o: Outcome)
    ensures o.db == db
    ensures IssuesNothing(o.reply)
  {
    Outcome(db,
            if cfg.adminKey.None? then Refused(NotFound)
            else if !ShowsAdminKey(headers, AdminConfig(cfg.keys, cfg.adminKey, cfg.master)) then Refused(Unauthorized)
            else if presented.JwtText? && ValidateAccess(presented.jwt, cfg.keys, now).Some?
            then TokenActive(ValidateAccess(presented.jwt, cfg.keys, now).value)
            else TokenInactive)
  }

  // ── Rate limiting and background cleanup ───────────────────────────────────

  function RateCheckSpec(db: Db, now: Time, key: string): (o: Outcome)
    ensures o.db == db.(buckets := o.db.buckets)
    ensures IssuesNothing(o.reply)
  {
    Outcome(db.(buckets := Upsert(db.buckets, key, now)),
            if Overflows(db.buckets, key, now) then Refused(Internal)
            else if Admits(db.buckets, key, now) then Done else Refused(TooManyRequests))
  }

  function CleanupSpec(db: Db, now: Time): (o: Outcome)
    ensures o.db == db.(refresh := o.db.refresh, attempts := o.db.attempts, jtis := o.db.jtis,
                        sessions := o.db.sessions, buckets := o.db.buckets)
    ensures JtisStand(db.jtis, o.db.jtis, now)
    ensures RowsOnlyRevoked(db.refresh, o.db.refresh)
    ensures IssuesNothing(o.reply)
  {
    Outcome(db.(refresh := PurgeRefresh(db.refresh, now),
                attempts := KeptSince(db.attempts, now - ATTEMPT_RETENTION),
                jtis := PurgeJtis(db.jtis, now),
                sessions := PurgeSessions(db.sessions, now),
                buckets := Purge(db.buckets, now)), Done)
  }

  // ── Steps and runs ─────────────────────────────────────────────────────────

  function MintOf(r: Request): Option<Issuance> {
    match r
    case Login(_, _, _, mint) => Some(mint)
    case LoginUniversal(_, _, mint) => Some(mint)
    case Refresh(_, _, mint) => Some(mint)
    case Exchange(_, mint) => Some(mint)
    case MfaChallenge(_, _, _, _, mint) => Some(mint)
    case _ => None
  }

  predicate MintsHash(r: Request, h: Digest) {
    MintOf(r).Some? && h == Sha256(MintOf(r).value.refresh)
  }

  /** What every step respects, whoever asks for what: the configuration tables stand, accounts
      stay in their tenant, refresh tokens only age or are revoked unless this step minted them,
      and each other table moves only for the requests that own it. */
  ghost predicate Lawful(db: Db, e: Event, o: Outcome) {
    var r, after := e.request, o.db;
    && (if MintOf(r).Some? then HandsOut(o.reply, r.Login? || r.LoginUniversal?) else IssuesNothing(o.reply))
    && after.settings == db.settings && after.historySize == db.historySize
    && after.tenants == db.tenants && after.clients == db.clients
    && UsersGrow(db.users, after.users)
    && (r.Register? || r.VerifyEmail? || r.ResetPassword? || r.UpdateUser? || after.users == db.users)
    && (forall h :: h in after.refresh ==>
          SameToken(db.refresh, after.refresh, h)
          || (MintOf(r).Some? && StoredNew(db.users, after.refresh, h, MintOf(r).value)))
    && (MintOf(r).Some? || r.Logout? || r.OauthRevoke? || r.RevokeAll? || r.ResetPassword? || r.Cleanup?
        || after.refresh == db.refresh)
    && (r.Authorize? || r.Exchange? || after.codes == db.codes)
    && (r.Login? || r.LoginUniversal? || r.Cleanup? || after.attempts == db.attempts)
    && (r.MfaSetup? || r.MfaConfirm? || r.MfaDisable? || r.AdminDisableMfa? || after.totp == db.totp)
    && (r.MfaBackupCodes? || r.MfaChallenge? || r.MfaDisable? || r.AdminDisableMfa? || after.backup == db.backup)
    && (r.Register? || r.VerifyEmail? || r.ForgotPassword? || r.ResetPassword? || after.oneTime == db.oneTime)
    && (r.ResetPassword? || r.UpdateUser? || after.history == db.history)
    && (r.RateCheck? || r.Cleanup? || after.buckets == db.buckets)
    && (r.Logout? || r.OauthRevoke? || r.Cleanup? || after.jtis == db.jtis)
    && (r.Login? || r.LoginUniversal? || r.MfaChallenge? || r.Authorize? || r.Logout? || r.Cleanup?
        || after.sessions == db.sessions)
  }

  // The requests by kind, and what one of each kind does.

  predicate OfSignIn(r: Request) {
    r.Login? || r.LoginUniversal? || r.Refresh?
  }

  ghost function SignInStep(db: Db, cfg: Config, e: Event): (o: Outcome)
    requires OfSignIn(e.request)
    ensures Lawful(db, e, o)
  {
    match e.request
    case Login(ctx, email, plain, mint) => LoginSpec(db, cfg, e.now, ctx, email, plain, mint)
    case LoginUniversal(email, plain, mint) => LoginUniversalSpec(db, cfg, e.now, email, plain, mint)
    case Refresh(ctx, token, mint) => RefreshSpec(db, cfg, e.now, ctx, token, mint)
  }

  predicate OfGrant(r: Request) {
    r.Authorize? || r.Exchange?
  }

  function GrantStep(db: Db, cfg: Config, e: Event): (o: Outcome)
    requires OfGrant(e.request)
    ensures Lawful(db, e, o)
  {
    match e.request
    case Authorize(credential, params, newCode) => AuthorizeSpec(db, cfg, e.now, credential, params, newCode)
    case Exchange(req, mint) => ExchangeSpec(db, cfg, e.now, req, mint)
  }

  predicate OfMfa(r: Request) {
    r.MfaSetup? || r.MfaConfirm? || r.MfaDisable? || r.MfaBackupCodes? || r.MfaChallenge? || r.AdminDisableMfa?
  }

  function MfaStep(db: Db, cfg: Config, e: Event): (o: Outcome)
    requires OfMfa(e.request)
    ensures Lawful(db, e, o)
  {
    match e.request
    case MfaSetup(ctx, bearer, secret) => MfaSetupSpec(db, cfg, e.now, ctx, bearer, secret)
    case MfaConfirm(ctx, bearer, code) => MfaConfirmSpec(db, cfg, e.now, ctx, bearer, code)
    case MfaDisable(ctx, bearer, code) => MfaDisableSpec(db, cfg, e.now, ctx, bearer, code)
    case MfaBackupCodes(ctx, bearer, code, drawn) => MfaBackupCodesSpec(db, cfg, e.now, ctx, bearer, code, drawn)
    case MfaChallenge(ctx, mfaToken, totpCode, backupCode, mint) =>
      MfaChallengeSpec(db, cfg, e.now, ctx, mfaToken, totpCode, backupCode, mint)
    case AdminDisableMfa(headers, user) => AdminDisableMfaSpec(db, cfg, e.now, headers, user)
  }

  predicate OfAccount(r: Request) {
    r.Register? || r.VerifyEmail? || r.ForgotPassword? || r.ResetPassword? || r.UpdateUser?
  }

  ghost function AccountStep(db: Db, cfg: Config, e: Event): (o: Outcome)
    requires OfAccount(e.request)
    ensures Lawful(db, e, o)
  {
    match e.request
    case Register(ctx, email, password, formatOk, id, otp) =>
      RegisterSpec(db, e.now, ctx, email, password, formatOk, id, otp)
    case VerifyEmail(ctx, email, otp) => VerifyEmailSpec(db, e.now, ctx, email, otp)
    case ForgotPassword(ctx, email, drawnToken) => ForgotPasswordSpec(db, e.now, ctx, email, drawnToken)
    case ResetPassword(ctx, token, password, formatOk) =>
      ResetPasswordSpec(db, e.now, ctx, token, password, formatOk)
    case UpdateUser(headers, user, email, newPassword, active) =>
      UpdateUserSpec(db, cfg, e.now, headers, user, email, newPassword, active)
  }

  predicate OfRevocation(r: Request) {
    r.Logout? || r.OauthRevoke? || r.RevokeAll? || r.Introspect?
  }

  function RevocationStep(db: Db, cfg: Config, e: Event): (o: Outcome)
    requires OfRevocation(e.request)
    ensures Lawful(db, e, o)
  {
    match e.request
    case Logout(ctx, bearer, cookie, refreshToken) => LogoutSpec(db, cfg, e.now, ctx, bearer, cookie, refreshToken)
    case OauthRevoke(bearer, presented, hint) => OauthRevokeSpec(db, cfg, e.now, bearer, presented, hint)
    case RevokeAll(ctx, bearer) => RevokeAllSpec(db, cfg, e.now, ctx, bearer)
    case Introspect(headers, presented) => IntrospectSpec(db, cfg, e.now, headers, presented)
  }

  predicate OfUpkeep(r: Request) {
    r.RateCheck? || r.Cleanup?
  }

  function UpkeepStep(db: Db, cfg: Config, e: Event): (o: Outcome)
    requires OfUpkeep(e.request)
    ensures Lawful(db, e, o)
  {
    match e.request
    case RateCheck(key) => RateCheckSpec(db, e.now, key)
    case Cleanup => CleanupSpec(db, e.now)
  }

  /** One request, or one cleanup, from its beginning to its end. */
  ghost function Step(db: Db, cfg: Config, e: Event): (o: Outcome)
    ensures Lawful(db, e, o)
  {
    if OfSignIn(e.request) then SignInStep(db, cfg, e)
    else if OfGrant(e.request) then GrantStep(db, cfg, e)
    else if OfMfa(e.request) then MfaStep(db, cfg, e)
    else if OfAccount(e.request) then AccountStep(db, cfg, e)
    else if OfRevocation(e.request) then RevocationStep(db, cfg, e)
    else UpkeepStep(db, cfg, e)
  }

  /** A serial history of the service: every request is handled to its end before the next. */
  datatype Run = Run(cfg: Config, events: seq<Event>, states: seq<Db>, replies: seq<Reply>) {
    ghost predicate Shaped() {
      |states| == |events| + 1 && |replies| == |events|
    }

    ghost predicate Stepped(i: nat)
      requires Shaped() && i < |events|
    {
      Step(states[i], cfg, events[i]) == Outcome(states[i + 1], replies[i])
    }

    ghost predicate Valid() {
      Shaped() && forall i {:trigger Stepped(i)} :: 0 <= i < |events| ==> Stepped(i)
    }

    predicate Monotone() {
      forall i, j :: 0 <= i <= j < |events| ==> events[i].now <= events[j].now
    }
  }
}
