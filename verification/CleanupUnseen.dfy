/** The six-hourly cleanup cannot be observed: a run with cleanups anywhere gives the answers of the
    run without them. Proved as a simulation between the cleaned and the uncleaned database. */
module CleanupUnseen {
  import opened Prelude
  import opened Uuids
  import opened Crypto
  import opened AdminAuth
  import opened Jwt
  import opened RateLimit
  import opened Schema
  import opened Handlers
  import opened Runs
  import Lockout

  // ── The simulation, table by table: `a` has been cleaned, `b` has not ──────

  ghost predicate RefreshSim(a: RefreshTable, b: RefreshTable, now: Time) {
    (forall h :: h in a ==> h in b && a[h] == b[h])
    && (forall h :: h in b && h !in a ==> b[h].expiresAt < now)
  }

  ghost predicate SessionSim(a: SessionTable, b: SessionTable, now: Time) {
    (forall s :: s in a ==> s in b && a[s] == b[s])
    && (forall s :: s in b && s !in a ==> b[s].expiresAt < now)
  }

  ghost predicate JtiSim(a: JtiTable, b: JtiTable, now: Time) {
    (forall j :: j in a ==> j in b)
    && (forall j :: j in b && b[j] >= now ==> j in a && a[j] == b[j])
  }

  ghost predicate AttemptSim(a: seq<Attempt>, b: seq<Attempt>, now: Time) {
    forall t, l, since :: since >= now - ATTEMPT_RETENTION ==> CountSince(a, t, l, since) == CountSince(b, t, l, since)
  }

  ghost predicate BucketSim(a: Buckets, b: Buckets, now: Time) {
    (forall k :: k in a ==> k in b && a[k] == b[k])
    && (forall k :: k in b && k !in a ==> b[k].expiresAt < now)
    && (forall k :: k in b ==> b[k].expiresAt >= (k.window + 2) * WINDOW_SECS)
  }

  predicate SameElsewhere(a: Db, b: Db) {
    && a.settings == b.settings && a.historySize == b.historySize && a.tenants == b.tenants && a.users == b.users
    && a.clients == b.clients && a.codes == b.codes && a.oneTime == b.oneTime && a.totp == b.totp
    && a.backup == b.backup && a.history == b.history
  }

  ghost predicate Sim(a: Db, b: Db, now: Time) {
    && SameElsewhere(a, b)
    && RefreshSim(a.refresh, b.refresh, now) && JtiSim(a.jtis, b.jtis, now) && SessionSim(a.sessions, b.sessions, now)
    && AttemptSim(a.attempts, b.attempts, now) && BucketSim(a.buckets, b.buckets, now)
  }

  /** The same answer, and databases that stay related. */
  ghost predicate Alike(x: Outcome, y: Outcome, now: Time) {
    x.reply == y.reply && Sim(x.db, y.db, now)
  }

  // ── Table lemmas ───────────────────────────────────────────────────────────

  lemma SimLater(a: Db, b: Db, now: Time, later: Time)
    requires Sim(a, b, now) && now <= later
    ensures Sim(a, b, later)
  {}

  lemma FindLiveSim(a: RefreshTable, b: RefreshTable, now: Time, t: Uuid, h: Digest)
    requires RefreshSim(a, b, now)
    ensures FindLive(a, t, h, now) == FindLive(b, t, h, now)
  {}

  lemma RevokeAllSim(a: RefreshTable, b: RefreshTable, now: Time, t: Uuid, user: Uuid)
    requires RefreshSim(a, b, now)
    ensures RefreshSim(RevokeAllOf(a, t, user, now), RevokeAllOf(b, t, user, now), now)
  {}

  lemma RevokeOwnSim(a: RefreshTable, b: RefreshTable, now: Time, caller: Claims, presented: Presented)
    requires RefreshSim(a, b, now)
    ensures RefreshSim(RevokeOwnRefresh(a, now, caller, presented), RevokeOwnRefresh(b, now, caller, presented), now)
  {}

  lemma RevokeShownSim(a: RefreshTable, b: RefreshTable, now: Time, t: Uuid, user: Uuid, token: string)
    requires RefreshSim(a, b, now)
    ensures RefreshSim(RevokeShown(a, t, user, token, now), RevokeShown(b, t, user, token, now), now)
  {}

  lemma RevokeJtiSim(a: JtiTable, b: JtiTable, now: Time, jti: string, expiresAt: Time)
    requires JtiSim(a, b, now)
    ensures JtiSim(RevokeJti(a, jti, expiresAt), RevokeJti(b, jti, expiresAt), now)
  {}

  lemma LoginAttemptsSim(a: seq<Attempt>, b: seq<Attempt>, now: Time, t: Uuid, l: Lookup, v: LoginVerdict)
    requires AttemptSim(a, b, now)
    ensures AttemptSim(AttemptsAfter(a, t, l, now, v), AttemptsAfter(b, t, l, now, v), now)
  {
    forall t', l', since | since >= now - ATTEMPT_RETENTION
      ensures CountSince(AttemptsAfter(a, t, l, now, v), t', l', since)
              == CountSince(AttemptsAfter(b, t, l, now, v), t', l', since)
    {
      Lockout.CountAfterLogin(a, t, l, now, v, t', l', since);
      Lockout.CountAfterLogin(b, t, l, now, v, t', l', since);
    }
  }

  /** A bucket that is missing belongs to a window long past, so the next count is the same. */
  lemma UpsertSim(a: Buckets, b: Buckets, now: Time, key: string)
    requires BucketSim(a, b, now)
    ensures BucketSim(Upsert(a, key, now), Upsert(b, key, now), now)
    ensures Admits(a, key, now) == Admits(b, key, now) && Overflows(a, key, now) == Overflows(b, key, now)
  {}

  /** A cleanup of the one side is no step at all for the other. */
  lemma CleanupSim(a: Db, b: Db, now: Time)
    requires Sim(a, b, now)
    ensures Sim(CleanupSpec(a, now).db, b, now)
  {
    var after := CleanupSpec(a, now).db;
    forall t, l, since | since >= now - ATTEMPT_RETENTION
      ensures CountSince(after.attempts, t, l, since) == CountSince(b.attempts, t, l, since)
    {
      Lockout.CountAfterCleanup(a.attempts, t, l, now - ATTEMPT_RETENTION, since);
    }
  }

  /** A step that leaves the cleaned tables alone, and the others equal. */
  lemma Untouched(a: Db, b: Db, now: Time, x: Db, y: Db)
    requires Sim(a, b, now) && SameElsewhere(x, y)
    requires x.refresh == a.refresh && x.jtis == a.jtis && x.sessions == a.sessions
    requires x.attempts == a.attempts && x.buckets == a.buckets
    requires y.refresh == b.refresh && y.jtis == b.jtis && y.sessions == b.sessions
    requires y.attempts == b.attempts && y.buckets == b.buckets
    ensures Sim(x, y, now)
  {}

  // ── When a request can tell ────────────────────────────────────────────────

  /** The valid bearer whose revocation this request looks up. */
  function LookedUp(cfg: Config, e: Event): Option<Claims> {
    match e.request
    case Authorize(Bearer(t), _, _) => ValidateAccess(t, cfg.keys, e.now)
    case MfaSetup(_, t, _) => ValidateAccess(t, cfg.keys, e.now)
    case MfaConfirm(_, t, _) => ValidateAccess(t, cfg.keys, e.now)
    case MfaDisable(_, t, _) => ValidateAccess(t, cfg.keys, e.now)
    case MfaBackupCodes(_, t, _, _) => ValidateAccess(t, cfg.keys, e.now)
    case Logout(_, t, _, _) => ValidateAccess(t, cfg.keys, e.now)
    case RevokeAll(_, t) => ValidateAccess(t, cfg.keys, e.now)
    case _ => None
  }

  /** A revoked token is not shown after the expiry stored with its revocation, and session ids
      are new. `b` is the uncleaned database. */
  predicate Punctual(b: Db, cfg: Config, e: Event) {
    && (LookedUp(cfg, e).Some? && LookedUp(cfg, e).value.jti in b.jtis ==> e.now <= b.jtis[LookedUp(cfg, e).value.jti])
    && (MintOf(e.request).Some? ==> MintOf(e.request).value.session !in b.sessions)
  }

  /** Every tenant's lockout window is at most an hour. */
  ghost predicate WindowsWithinHour(settings: map<Uuid, Settings>) {
    forall t :: SettingsOf(settings, t).windowMinutes <= 60
  }

  lemma AuthenticateSim(a: Db, b: Db, cfg: Config, now: Time, ctx: Ctx, t: Token)
    requires Sim(a, b, now)
    requires ValidateAccess(t, cfg.keys, now).Some? && ValidateAccess(t, cfg.keys, now).value.jti in b.jtis
             ==> now <= b.jtis[ValidateAccess(t, cfg.keys, now).value.jti]
    ensures Authenticate(a, cfg, now, ctx, t) == Authenticate(b, cfg, now, ctx, t)
    ensures Identify(a, cfg, now, Bearer(t)) == Identify(b, cfg, now, Bearer(t))
  {}

  // ── Handler by handler ─────────────────────────────────────────────────────

  lemma IssueSim(a: Db, b: Db, now: Time, who: Option<Owner>, mint: Issuance, days: int)
    requires RefreshSim(a.refresh, b.refresh, now) && SessionSim(a.sessions, b.sessions, now)
             && mint.session !in b.sessions
    ensures RefreshSim(WithRefresh(a.refresh, who, mint, now, days), WithRefresh(b.refresh, who, mint, now, days), now)
    ensures SessionSim(WithSession(a.sessions, who, mint, now, days), WithSession(b.sessions, who, mint, now, days),
                       now)
  {}

  lemma LoginSim(a: Db, b: Db, cfg: Config, now: Time, ctx: Ctx, email: string, plain: string, mint: Issuance)
    requires Sim(a, b, now) && WindowsWithinHour(b.settings) && mint.session !in b.sessions
    ensures Alike(LoginSpec(a, cfg, now, ctx, email, plain, mint), LoginSpec(b, cfg, now, ctx, email, plain, mint), now)
  {
    assert SettingsOf(b.settings, ctx.tenant).windowMinutes <= 60;
    var v := JudgeLogin(b, now, ctx, email, plain);
    assert JudgeLogin(a, now, ctx, email, plain) == v;
    IssueSim(a, b, now, LoginIssuesTo(b.totp, ctx.tenant, v), mint, SettingsOf(b.settings, ctx.tenant).refreshDays);
    LoginAttemptsSim(a.attempts, b.attempts, now, ctx.tenant, Lookup(email, ctx.key), v);
  }

  lemma LoginUniversalSim(a: Db, b: Db, cfg: Config, now: Time, email: string, plain: string, mint: Issuance)
    requires Sim(a, b, now) && WindowsWithinHour(b.settings) && mint.session !in b.sessions
    ensures Alike(LoginUniversalSpec(a, cfg, now, email, plain, mint),
                  LoginUniversalSpec(b, cfg, now, email, plain, mint), now)
  {
    var where := Resolve(b.users, cfg.wrapKey, b.tenants, email);
    if where.Within? {
      LoginSim(a, b, cfg, now, where.ctx, email, plain, mint);
    }
  }

  lemma RotateSim(a: RefreshTable, b: RefreshTable, now: Time, h: Digest, minted: Digest, row: RefreshRow)
    requires RefreshSim(a, b, now) && h in a && h in b
    ensures RefreshSim(a[h := Revoked(a[h], now)][minted := row], b[h := Revoked(b[h], now)][minted := row], now)
  {}

  lemma RefreshAccountSim(a: Db, b: Db, now: Time, ctx: Ctx, token: string)
    requires Sim(a, b, now)
    ensures RefreshAccount(a, ctx, token, now) == RefreshAccount(b, ctx, token, now)
    ensures RefreshAccount(b, ctx, token, now).Ok? ==> Sha256(token) in a.refresh && Sha256(token) in b.refresh
  {
    FindLiveSim(a.refresh, b.refresh, now, ctx.tenant, Sha256(token));
  }

  lemma RefreshSpecSim(a: Db, b: Db, cfg: Config, now: Time, ctx: Ctx, token: string, mint: Issuance)
    requires Sim(a, b, now)
    ensures Alike(RefreshSpec(a, cfg, now, ctx, token, mint), RefreshSpec(b, cfg, now, ctx, token, mint), now)
  {
    RefreshAccountSim(a, b, now, ctx, token);
    var who := RefreshAccount(b, ctx, token, now);
    if who.Ok? {
      RotateSim(a.refresh, b.refresh, now, Sha256(token), Sha256(mint.refresh),
                NewRefresh(who.value, now, cfg.refreshDays));
    }
  }

  lemma SeenSim(a: Db, b: Db, cfg: Config, now: Time, credential: Credential)
    requires SessionSim(a.sessions, b.sessions, now)
    requires Identify(a, cfg, now, credential).Ok? && Identify(b, cfg, now, credential).Ok?
    ensures SessionSim(SessionsSeen(a.sessions, credential, now), SessionsSeen(b.sessions, credential, now), now)
  {}

  lemma AuthorizeSim(a: Db, b: Db, cfg: Config, now: Time, credential: Credential, p: AuthorizeParams, newCode: string)
    requires Sim(a, b, now) && Identify(a, cfg, now, credential) == Identify(b, cfg, now, credential)
    ensures Alike(AuthorizeSpec(a, cfg, now, credential, p, newCode),
                  AuthorizeSpec(b, cfg, now, credential, p, newCode), now)
  {
    if Identify(b, cfg, now, credential).Ok? {
      SeenSim(a, b, cfg, now, credential);
    }
  }

  lemma ExchangeSim(a: Db, b: Db, cfg: Config, now: Time, req: TokenRequest, mint: Issuance)
    requires Sim(a, b, now)
    ensures Alike(ExchangeSpec(a, cfg, now, req, mint), ExchangeSpec(b, cfg, now, req, mint), now)
  {
    var r := ExchangeCheck(b, cfg, now, req);
    assert ExchangeCheck(a, cfg, now, req) == r;
  }

  lemma SignInSim(a: Db, b: Db, cfg: Config, e: Event)
    requires Sim(a, b, e.now) && WindowsWithinHour(b.settings) && Punctual(b, cfg, e) && OfSignIn(e.request)
    ensures Alike(SignInStep(a, cfg, e), SignInStep(b, cfg, e), e.now)
  {
    match e.request
    case Login(ctx, email, plain, mint) => LoginSim(a, b, cfg, e.now, ctx, email, plain, mint);
    case LoginUniversal(email, plain, mint) => LoginUniversalSim(a, b, cfg, e.now, email, plain, mint);
    case Refresh(ctx, token, mint) => RefreshSpecSim(a, b, cfg, e.now, ctx, token, mint);
  }

  lemma GrantSim(a: Db, b: Db, cfg: Config, e: Event)
    requires Sim(a, b, e.now) && Punctual(b, cfg, e) && OfGrant(e.request)
    ensures Alike(GrantStep(a, cfg, e), GrantStep(b, cfg, e), e.now)
  {
    match e.request
    case Authorize(credential, params, newCode) =>
      if credential.Bearer? {
        AuthenticateSim(a, b, cfg, e.now, Ctx(0, ""), credential.token);
      }
      AuthorizeSim(a, b, cfg, e.now, credential, params, newCode);
    case Exchange(req, mint) => ExchangeSim(a, b, cfg, e.now, req, mint);
  }

  lemma MfaSetupSim(a: Db, b: Db, cfg: Config, now: Time, ctx: Ctx, bearer: Token, secret: string)
    requires Sim(a, b, now) && Authenticate(a, cfg, now, ctx, bearer) == Authenticate(b, cfg, now, ctx, bearer)
    ensures Alike(MfaSetupSpec(a, cfg, now, ctx, bearer, secret), MfaSetupSpec(b, cfg, now, ctx, bearer, secret), now)
  {
    assert SetupCheck(a, cfg, now, ctx, bearer) == SetupCheck(b, cfg, now, ctx, bearer);
  }

  lemma MfaConfirmSim(a: Db, b: Db, cfg: Config, now: Time, ctx: Ctx, bearer: Token, code: string)
    requires Sim(a, b, now) && Authenticate(a, cfg, now, ctx, bearer) == Authenticate(b, cfg, now, ctx, bearer)
    ensures Alike(MfaConfirmSpec(a, cfg, now, ctx, bearer, code), MfaConfirmSpec(b, cfg, now, ctx, bearer, code), now)
  {
    assert ConfirmCheck(a, cfg, now, ctx, bearer, code) == ConfirmCheck(b, cfg, now, ctx, bearer, code);
  }

  lemma WithoutMfaSim(a: Db, b: Db, now: Time, account: Owner)
    requires Sim(a, b, now)
    ensures Alike(WithoutMfa(a, account), WithoutMfa(b, account), now)
  {}

  lemma MfaDisableSim(a: Db, b: Db, cfg: Config, now: Time, ctx: Ctx, bearer: Token, code: string)
    requires Sim(a, b, now) && Authenticate(a, cfg, now, ctx, bearer) == Authenticate(b, cfg, now, ctx, bearer)
    ensures Alike(MfaDisableSpec(a, cfg, now, ctx, bearer, code), MfaDisableSpec(b, cfg, now, ctx, bearer, code), now)
  {
    var who := Reauthenticate(b, cfg, now, ctx, bearer, code);
    assert Reauthenticate(a, cfg, now, ctx, bearer, code) == who;
    if who.Ok? {
      WithoutMfaSim(a, b, now, who.value);
    }
  }

  lemma MfaBackupCodesSim(a: Db, b: Db, cfg: Config, now: Time, ctx: Ctx, bearer: Token, code: string, drawn: TenCodes)
    requires Sim(a, b, now) && Authenticate(a, cfg, now, ctx, bearer) == Authenticate(b, cfg, now, ctx, bearer)
    ensures Alike(MfaBackupCodesSpec(a, cfg, now, ctx, bearer, code, drawn),
                  MfaBackupCodesSpec(b, cfg, now, ctx, bearer, code, drawn), now)
  {
    assert Reauthenticate(a, cfg, now, ctx, bearer, code) == Reauthenticate(b, cfg, now, ctx, bearer, code);
  }

  lemma MfaChallengeSim(a: Db, b: Db, cfg: Config, now: Time, ctx: Ctx, mfaToken: Token,
                        totpCode: Option<string>, backupCode: Option<string>, mint: Issuance)
    requires Sim(a, b, now) && mint.session !in b.sessions
    ensures Alike(MfaChallengeSpec(a, cfg, now, ctx, mfaToken, totpCode, backupCode, mint),
                  MfaChallengeSpec(b, cfg, now, ctx, mfaToken, totpCode, backupCode, mint), now)
  {
    var v := JudgeChallenge(b, cfg, now, ctx, mfaToken, totpCode, backupCode);
    assert JudgeChallenge(a, cfg, now, ctx, mfaToken, totpCode, backupCode) == v;
    IssueSim(a, b, now, ChallengeIssuesTo(v), mint, SettingsOf(b.settings, ctx.tenant).refreshDays);
  }

  lemma AdminDisableMfaSim(a: Db, b: Db, cfg: Config, now: Time, headers: Headers, user: Uuid)
    requires Sim(a, b, now)
    ensures Alike(AdminDisableMfaSpec(a, cfg, now, headers, user), AdminDisableMfaSpec(b, cfg, now, headers, user), now)
  {
    var who := AdminAccount(cfg, now, headers, user);
    if who.Ok? {
      WithoutMfaSim(a, b, now, who.value);
    }
  }

  lemma MfaSim(a: Db, b: Db, cfg: Config, e: Event)
    requires Sim(a, b, e.now) && Punctual(b, cfg, e) && OfMfa(e.request)
    ensures Alike(MfaStep(a, cfg, e), MfaStep(b, cfg, e), e.now)
  {
    match e.request
    case MfaSetup(ctx, bearer, secret) =>
      AuthenticateSim(a, b, cfg, e.now, ctx, bearer);
      MfaSetupSim(a, b, cfg, e.now, ctx, bearer, secret);
    case MfaConfirm(ctx, bearer, code) =>
      AuthenticateSim(a, b, cfg, e.now, ctx, bearer);
      MfaConfirmSim(a, b, cfg, e.now, ctx, bearer, code);
    case MfaDisable(ctx, bearer, code) =>
      AuthenticateSim(a, b, cfg, e.now, ctx, bearer);
      MfaDisableSim(a, b, cfg, e.now, ctx, bearer, code);
    case MfaBackupCodes(ctx, bearer, code, drawn) =>
      AuthenticateSim(a, b, cfg, e.now, ctx, bearer);
      MfaBackupCodesSim(a, b, cfg, e.now, ctx, bearer, code, drawn);
    case MfaChallenge(ctx, mfaToken, totpCode, backupCode, mint) =>
      MfaChallengeSim(a, b, cfg, e.now, ctx, mfaToken, totpCode, backupCode, mint);
    case AdminDisableMfa(headers, user) => AdminDisableMfaSim(a, b, cfg, e.now, headers, user);
  }

  lemma RegisterSim(a: Db, b: Db, now: Time, ctx: Ctx, email: string, password: NewPassword, formatOk: bool, id: Uuid,
                    otp: string)
    requires Sim(a, b, now)
    ensures Alike(RegisterSpec(a, now, ctx, email, password, formatOk, id, otp),
                  RegisterSpec(b, now, ctx, email, password, formatOk, id, otp), now)
  {
    assert RegisterCheck(a, ctx, email, formatOk, id) == RegisterCheck(b, ctx, email, formatOk, id);
    Untouched(a, b, now, RegisterSpec(a, now, ctx, email, password, formatOk, id, otp).db,
              RegisterSpec(b, now, ctx, email, password, formatOk, id, otp).db);
  }

  lemma VerifyEmailSim(a: Db, b: Db, now: Time, ctx: Ctx, email: string, otp: string)
    requires Sim(a, b, now)
    ensures Alike(VerifyEmailSpec(a, now, ctx, email, otp), VerifyEmailSpec(b, now, ctx, email, otp), now)
  {}

  lemma ForgotPasswordWrites(db: Db, now: Time, ctx: Ctx, email: string, drawn: string)
    ensures var o := ForgotPasswordSpec(db, now, ctx, email, drawn);
            var who := FindByLookup(db.users, ctx.tenant, Lookup(email, ctx.key));
            if who.None? || !db.users[who.value].active then o.reply == Done && o.db.oneTime == db.oneTime
            else if Sha256(drawn) in db.oneTime then o.reply == Refused(Internal) && o.db.oneTime == db.oneTime
            else o.reply == Done
                 && o.db.oneTime == db.oneTime[Sha256(drawn) :=
                      OneTime(ctx.tenant, who.value, PasswordReset, now + RESET_MINUTES * MINUTE, None)]
  {}

  lemma ForgotPasswordSim(a: Db, b: Db, now: Time, ctx: Ctx, email: string, drawn: string)
    requires Sim(a, b, now)
    ensures Alike(ForgotPasswordSpec(a, now, ctx, email, drawn), ForgotPasswordSpec(b, now, ctx, email, drawn), now)
  {
    ForgotPasswordWrites(a, now, ctx, email, drawn);
    ForgotPasswordWrites(b, now, ctx, email, drawn);
    Untouched(a, b, now, ForgotPasswordSpec(a, now, ctx, email, drawn).db,
              ForgotPasswordSpec(b, now, ctx, email, drawn).db);
  }

  lemma ResetPasswordSim(a: Db, b: Db, now: Time, ctx: Ctx, token: string, password: NewPassword, formatOk: bool)
    requires Sim(a, b, now)
    ensures Alike(ResetPasswordSpec(a, now, ctx, token, password, formatOk),
                  ResetPasswordSpec(b, now, ctx, token, password, formatOk), now)
  {
    var verdict := JudgeReset(b, now, ctx, token, password.plain, formatOk);
    assert JudgeReset(a, now, ctx, token, password.plain, formatOk) == verdict;
    if verdict.Accepted? {
      RevokeAllSim(a.refresh, b.refresh, now, ctx.tenant, verdict.user);
    }
  }

  lemma UpdateAccountSim(a: Db, b: Db, cfg: Config, now: Time, account: Owner, newEmail: Option<string>,
                         newPassword: Option<NewPassword>, active: bool)
    requires Sim(a, b, now)
    ensures Alike(UpdateAccount(a, cfg, now, account, newEmail, newPassword, active),
                  UpdateAccount(b, cfg, now, account, newEmail, newPassword, active), now)
  {
    assert UpdateCheck(a, cfg, account, newEmail, newPassword) == UpdateCheck(b, cfg, account, newEmail, newPassword);
  }

  lemma UpdateUserSim(a: Db, b: Db, cfg: Config, now: Time, headers: Headers, user: Uuid, newEmail: Option<string>,
                      newPassword: Option<NewPassword>, active: bool)
    requires Sim(a, b, now)
    ensures Alike(UpdateUserSpec(a, cfg, now, headers, user, newEmail, newPassword, active),
                  UpdateUserSpec(b, cfg, now, headers, user, newEmail, newPassword, active), now)
  {
    var who := AdminAccount(cfg, now, headers, user);
    if who.Ok? {
      UpdateAccountSim(a, b, cfg, now, who.value, newEmail, newPassword, active);
    }
  }

  lemma RegistrationSim(a: Db, b: Db, cfg: Config, e: Event)
    requires Sim(a, b, e.now) && (e.request.Register? || e.request.VerifyEmail?)
    ensures Alike(AccountStep(a, cfg, e), AccountStep(b, cfg, e), e.now)
  {
    match e.request
    case Register(ctx, email, password, formatOk, id, otp) =>
      RegisterSim(a, b, e.now, ctx, email, password, formatOk, id, otp);
      assert AccountStep(a, cfg, e) == RegisterSpec(a, e.now, ctx, email, password, formatOk, id, otp);
      assert AccountStep(b, cfg, e) == RegisterSpec(b, e.now, ctx, email, password, formatOk, id, otp);
    case VerifyEmail(ctx, email, otp) =>
      VerifyEmailSim(a, b, e.now, ctx, email, otp);
      assert AccountStep(a, cfg, e) == VerifyEmailSpec(a, e.now, ctx, email, otp);
      assert AccountStep(b, cfg, e) == VerifyEmailSpec(b, e.now, ctx, email, otp);
  }

  lemma PasswordSim(a: Db, b: Db, cfg: Config, e: Event)
    requires Sim(a, b, e.now) && (e.request.ForgotPassword? || e.request.ResetPassword? || e.request.UpdateUser?)
    ensures Alike(AccountStep(a, cfg, e), AccountStep(b, cfg, e), e.now)
  {
    match e.request
    case ForgotPassword(ctx, email, drawn) =>
      ForgotPasswordSim(a, b, e.now, ctx, email, drawn);
      assert AccountStep(a, cfg, e) == ForgotPasswordSpec(a, e.now, ctx, email, drawn);
      assert AccountStep(b, cfg, e) == ForgotPasswordSpec(b, e.now, ctx, email, drawn);
    case ResetPassword(ctx, token, password, formatOk) =>
      ResetPasswordSim(a, b, e.now, ctx, token, password, formatOk);
    case UpdateUser(headers, user, newEmail, newPassword, active) =>
      UpdateUserSim(a, b, cfg, e.now, headers, user, newEmail, newPassword, active);
  }

  lemma AccountSim(a: Db, b: Db, cfg: Config, e: Event)
    requires Sim(a, b, e.now) && OfAccount(e.request)
    ensures Alike(AccountStep(a, cfg, e), AccountStep(b, cfg, e), e.now)
  {
    if e.request.Register? || e.request.VerifyEmail? {
      RegistrationSim(a, b, cfg, e);
    } else {
      PasswordSim(a, b, cfg, e);
    }
  }

  lemma LogoutSim(a: Db, b: Db, cfg: Config, now: Time, ctx: Ctx, bearer: Token, cookie: Option<string>, token: string)
    requires Sim(a, b, now) && Authenticate(a, cfg, now, ctx, bearer) == Authenticate(b, cfg, now, ctx, bearer)
    ensures Alike(LogoutSpec(a, cfg, now, ctx, bearer, cookie, token),
                  LogoutSpec(b, cfg, now, ctx, bearer, cookie, token), now)
  {
    var who := Authenticate(b, cfg, now, ctx, bearer);
    if who.Ok? {
      RevokeShownSim(a.refresh, b.refresh, now, ctx.tenant, Subject(who.value), token);
      RevokeJtiSim(a.jtis, b.jtis, now, who.value.jti, LogoutExpiry(cfg, now, bearer));
    }
  }

  lemma AccessRevoked(db: Db, cfg: Config, now: Time, bearer: Token, presented: Presented, hint: bool, caller: Claims)
    requires ValidateAccess(bearer, cfg.keys, now) == Some(caller) && !hint
             && OwnAccessToken(cfg, now, caller, presented)
    ensures var c := ValidateAccess(presented.jwt, cfg.keys, now).value;
            OauthRevokeSpec(db, cfg, now, bearer, presented, hint)
            == Outcome(db.(jtis := RevokeJti(db.jtis, c.jti, c.exp)), Done)
  {}

  lemma RefreshRevoked(db: Db, cfg: Config, now: Time, bearer: Token, presented: Presented, hint: bool, caller: Claims)
    requires ValidateAccess(bearer, cfg.keys, now) == Some(caller)
             && (hint || !OwnAccessToken(cfg, now, caller, presented))
    ensures OauthRevokeSpec(db, cfg, now, bearer, presented, hint)
            == Outcome(db.(refresh := RevokeOwnRefresh(db.refresh, now, caller, presented)), Done)
  {}

  lemma JtisReplacedSim(a: Db, b: Db, now: Time, x: JtiTable, y: JtiTable)
    requires Sim(a, b, now) && JtiSim(x, y, now)
    ensures Sim(a.(jtis := x), b.(jtis := y), now)
  {}

  lemma RefreshReplacedSim(a: Db, b: Db, now: Time, x: RefreshTable, y: RefreshTable)
    requires Sim(a, b, now) && RefreshSim(x, y, now)
    ensures Sim(a.(refresh := x), b.(refresh := y), now)
  {}

  lemma AccessRevokedSim(a: Db, b: Db, cfg: Config, now: Time, bearer: Token, presented: Presented, hint: bool,
                         caller: Claims)
    requires Sim(a, b, now) && ValidateAccess(bearer, cfg.keys, now) == Some(caller)
    requires !hint && OwnAccessToken(cfg, now, caller, presented)
    ensures Alike(OauthRevokeSpec(a, cfg, now, bearer, presented, hint),
                  OauthRevokeSpec(b, cfg, now, bearer, presented, hint), now)
  {
    var c := ValidateAccess(presented.jwt, cfg.keys, now).value;
    AccessRevoked(a, cfg, now, bearer, presented, hint, caller);
    AccessRevoked(b, cfg, now, bearer, presented, hint, caller);
    RevokeJtiSim(a.jtis, b.jtis, now, c.jti, c.exp);
    JtisReplacedSim(a, b, now, RevokeJti(a.jtis, c.jti, c.exp), RevokeJti(b.jtis, c.jti, c.exp));
  }

  lemma RefreshRevokedSim(a: Db, b: Db, cfg: Config, now: Time, bearer: Token, presented: Presented, hint: bool,
                          caller: Claims)
    requires Sim(a, b, now) && ValidateAccess(bearer, cfg.keys, now) == Some(caller)
    requires hint || !OwnAccessToken(cfg, now, caller, presented)
    ensures Alike(OauthRevokeSpec(a, cfg, now, bearer, presented, hint),
                  OauthRevokeSpec(b, cfg, now, bearer, presented, hint), now)
  {
    RefreshRevoked(a, cfg, now, bearer, presented, hint, caller);
    RefreshRevoked(b, cfg, now, bearer, presented, hint, caller);
    RevokeOwnSim(a.refresh, b.refresh, now, caller, presented);
    RefreshReplacedSim(a, b, now, RevokeOwnRefresh(a.refresh, now, caller, presented),
                       RevokeOwnRefresh(b.refresh, now, caller, presented));
  }

  lemma OauthRevokeSim(a: Db, b: Db, cfg: Config, now: Time, bearer: Token, presented: Presented, hint: bool)
    requires Sim(a, b, now)
    ensures Alike(OauthRevokeSpec(a, cfg, now, bearer, presented, hint),
                  OauthRevokeSpec(b, cfg, now, bearer, presented, hint), now)
  {
    match ValidateAccess(bearer, cfg.keys, now)
    case None =>
    case Some(caller) =>
      if !hint && OwnAccessToken(cfg, now, caller, presented) {
        AccessRevokedSim(a, b, cfg, now, bearer, presented, hint, caller);
      } else {
        RefreshRevokedSim(a, b, cfg, now, bearer, presented, hint, caller);
      }
  }

  lemma RevokeAllSpecSim(a: Db, b: Db, cfg: Config, now: Time, ctx: Ctx, bearer: Token)
    requires Sim(a, b, now) && Authenticate(a, cfg, now, ctx, bearer) == Authenticate(b, cfg, now, ctx, bearer)
    ensures Alike(RevokeAllSpec(a, cfg, now, ctx, bearer), RevokeAllSpec(b, cfg, now, ctx, bearer), now)
  {
    var who := Authenticate(b, cfg, now, ctx, bearer);
    if who.Ok? {
      RevokeAllSim(a.refresh, b.refresh, now, ctx.tenant, Subject(who.value));
    }
  }

  lemma RevocationSim(a: Db, b: Db, cfg: Config, e: Event)
    requires Sim(a, b, e.now) && Punctual(b, cfg, e) && OfRevocation(e.request)
    ensures Alike(RevocationStep(a, cfg, e), RevocationStep(b, cfg, e), e.now)
  {
    match e.request
    case Logout(ctx, bearer, cookie, token) =>
      AuthenticateSim(a, b, cfg, e.now, ctx, bearer);
      LogoutSim(a, b, cfg, e.now, ctx, bearer, cookie, token);
    case RevokeAll(ctx, bearer) =>
      AuthenticateSim(a, b, cfg, e.now, ctx, bearer);
      RevokeAllSpecSim(a, b, cfg, e.now, ctx, bearer);
    case OauthRevoke(bearer, presented, hint) => OauthRevokeSim(a, b, cfg, e.now, bearer, presented, hint);
    case Introspect(_, _) =>
  }

  lemma RateCheckSim(a: Db, b: Db, cfg: Config, e: Event)
    requires Sim(a, b, e.now) && e.request.RateCheck?
    ensures Alike(UpkeepStep(a, cfg, e), UpkeepStep(b, cfg, e), e.now)
  {
    UpsertSim(a.buckets, b.buckets, e.now, e.request.key);
  }

  /** A request other than a cleanup gets the same answer from both, and leaves them related. */
  lemma StepSim(a: Db, b: Db, cfg: Config, e: Event)
    requires Sim(a, b, e.now) && WindowsWithinHour(b.settings) && Punctual(b, cfg, e) && !e.request.Cleanup?
    ensures Alike(Step(a, cfg, e), Step(b, cfg, e), e.now)
  {
    if OfSignIn(e.request) {
      SignInSim(a, b, cfg, e);
    } else if OfGrant(e.request) {
      GrantSim(a, b, cfg, e);
    } else if OfMfa(e.request) {
      MfaSim(a, b, cfg, e);
    } else if OfAccount(e.request) {
      AccountSim(a, b, cfg, e);
    } else if OfRevocation(e.request) {
      RevocationSim(a, b, cfg, e);
    } else {
      RateCheckSim(a, b, cfg, e);
    }
  }

  // ── Whole runs ─────────────────────────────────────────────────────────────

  /** The requests among the first `i` events, without the cleanups. */
  function Requests(run: Run, i: nat): (r: seq<Event>)
    requires run.Shaped() && i <= |run.events|
    ensures |r| == |Answers(run, i)| <= i
  {
    if i == 0 then []
    else Requests(run, i - 1) + if run.events[i - 1].request.Cleanup? then [] else [run.events[i - 1]]
  }

  /** The answers to those requests; a cleanup answers nobody. */
  function Answers(run: Run, i: nat): seq<Reply>
    requires run.Shaped() && i <= |run.events|
  {
    if i == 0 then []
    else Answers(run, i - 1) + if run.events[i - 1].request.Cleanup? then [] else [run.replies[i - 1]]
  }

  lemma {:induction false} RequestsGrow(run: Run, i: nat, k: nat)
    requires run.Shaped() && i <= k <= |run.events|
    ensures Requests(run, i) <= Requests(run, k)
  {
    if i < k {
      RequestsGrow(run, i, k - 1);
    }
  }

  /** `quiet` serves the same requests from the same database, and nothing is ever cleaned up. */
  ghost predicate WithoutCleanups(run: Run, quiet: Run) {
    run.Valid() && quiet.Valid() && quiet.cfg == run.cfg && quiet.states[0] == run.states[0]
    && quiet.events == Requests(run, |run.events|)
  }

  ghost predicate AllPunctual(quiet: Run)
    requires quiet.Shaped()
  {
    forall i :: 0 <= i < |quiet.events| ==> Punctual(quiet.states[i], quiet.cfg, quiet.events[i])
  }

  predicate BucketsOutlive(b: Buckets) {
    forall k :: k in b ==> b[k].expiresAt >= (k.window + 2) * WINDOW_SECS
  }

  lemma RunStepSim(run: Run, i: nat, quiet: Run, n: nat)
    requires run.Valid() && quiet.Valid() && i < |run.events| && n < |quiet.events| && quiet.cfg == run.cfg
    requires run.events[i] == quiet.events[n] && !run.events[i].request.Cleanup?
    requires Sim(run.states[i], quiet.states[n], run.events[i].now) && WindowsWithinHour(quiet.states[n].settings)
    requires Punctual(quiet.states[n], quiet.cfg, quiet.events[n])
    ensures run.replies[i] == quiet.replies[n]
    ensures Sim(run.states[i + 1], quiet.states[n + 1], run.events[i].now)
  {
    assert run.Stepped(i) && quiet.Stepped(n);
    StepSim(run.states[i], quiet.states[n], run.cfg, run.events[i]);
  }

  lemma RunCleanupSim(run: Run, i: nat, b: Db)
    requires run.Valid() && i < |run.events| && run.events[i].request.Cleanup?
    requires Sim(run.states[i], b, run.events[i].now)
    ensures Sim(run.states[i + 1], b, run.events[i].now)
  {
    CleanupAt(run, i);
    CleanupSim(run.states[i], b, run.events[i].now);
  }

  /** The time of the event before state `i`. */
  function ClockAt(run: Run, i: nat): Time
    requires i <= |run.events|
  {
    if i > 0 then run.events[i - 1].now else if |run.events| > 0 then run.events[0].now else 0
  }

  /** After `i` events the run and the quiet run are related, and have given the same answers. */
  ghost predicate Tracks(run: Run, quiet: Run, i: nat)
    requires run.Shaped() && quiet.Shaped() && i <= |run.events|
  {
    var n := |Requests(run, i)|;
    n <= |quiet.events| && Answers(run, i) == quiet.replies[..n]
    && Sim(run.states[i], quiet.states[n], ClockAt(run, i))
  }

  lemma CleanupTracks(run: Run, quiet: Run, i: nat)
    requires run.Valid() && quiet.Shaped() && i < |run.events| && run.events[i].request.Cleanup?
    requires Tracks(run, quiet, i) && ClockAt(run, i) <= run.events[i].now
    ensures Tracks(run, quiet, i + 1)
  {
    var n, e := |Requests(run, i)|, run.events[i];
    SimLater(run.states[i], quiet.states[n], ClockAt(run, i), e.now);
    RunCleanupSim(run, i, quiet.states[n]);
  }

  lemma NextQuietEvent(run: Run, quiet: Run, i: nat)
    requires run.Shaped() && i < |run.events| && !run.events[i].request.Cleanup?
    requires Requests(run, i + 1) <= quiet.events
    ensures |Requests(run, i)| < |quiet.events| && quiet.events[|Requests(run, i)|] == run.events[i]
  {
    assert Requests(run, i + 1)[|Requests(run, i)|] == run.events[i];
  }

  lemma OneMoreAnswer(run: Run, quiet: Run, i: nat, n: nat)
    requires run.Shaped() && quiet.Shaped() && i < |run.events| && !run.events[i].request.Cleanup?
    requires n == |Requests(run, i)| < |quiet.events| && Answers(run, i) == quiet.replies[..n]
    requires run.replies[i] == quiet.replies[n]
    ensures |Requests(run, i + 1)| == n + 1 && ClockAt(run, i + 1) == run.events[i].now
    ensures Answers(run, i + 1) == quiet.replies[..n + 1]
  {
    assert Answers(run, i + 1) == Answers(run, i) + [run.replies[i]];
  }

  lemma TracksWith(run: Run, quiet: Run, i: nat, n: nat, now: Time)
    requires run.Shaped() && quiet.Shaped() && i <= |run.events| && now == ClockAt(run, i)
    requires n == |Requests(run, i)| <= |quiet.events| && Answers(run, i) == quiet.replies[..n]
    requires Sim(run.states[i], quiet.states[n], now)
    ensures Tracks(run, quiet, i)
  {}

  lemma RequestTracks(run: Run, quiet: Run, i: nat)
    requires run.Valid() && quiet.Valid() && quiet.cfg == run.cfg && i < |run.events| && !run.events[i].request.Cleanup?
    requires Requests(run, i + 1) <= quiet.events && WindowsWithinHour(quiet.states[0].settings) && AllPunctual(quiet)
    requires Tracks(run, quiet, i) && ClockAt(run, i) <= run.events[i].now
    ensures Tracks(run, quiet, i + 1)
  {
    var n := |Requests(run, i)|;
    NextQuietEvent(run, quiet, i);
    SimLater(run.states[i], quiet.states[n], ClockAt(run, i), run.events[i].now);
    Lockout.SettingsStand(quiet, n);
    RunStepSim(run, i, quiet, n);
    OneMoreAnswer(run, quiet, i, n);
    TracksWith(run, quiet, i + 1, n + 1, run.events[i].now);
  }

  lemma EventTracks(run: Run, quiet: Run, i: nat, next: nat)
    requires WithoutCleanups(run, quiet) && run.Monotone() && i < |run.events| && next == i + 1
    requires WindowsWithinHour(run.states[0].settings) && AllPunctual(quiet) && Tracks(run, quiet, i)
    ensures Tracks(run, quiet, next)
  {
    RequestsGrow(run, i + 1, |run.events|);
    if run.events[i].request.Cleanup? {
      CleanupTracks(run, quiet, i);
    } else {
      RequestTracks(run, quiet, i);
    }
  }

  lemma StartTracks(run: Run, quiet: Run)
    requires run.Shaped() && quiet.Shaped() && quiet.states[0] == run.states[0] && BucketsOutlive(run.states[0].buckets)
    ensures Tracks(run, quiet, 0)
  {}

  lemma {:induction false} RunsTrack(run: Run, quiet: Run, i: nat)
    requires WithoutCleanups(run, quiet) && run.Monotone() && i <= |run.events|
    requires WindowsWithinHour(run.states[0].settings) && BucketsOutlive(run.states[0].buckets) && AllPunctual(quiet)
    ensures Tracks(run, quiet, i)
  {
    if i == 0 {
      StartTracks(run, quiet);
    } else {
      RunsTrack(run, quiet, i - 1);
      EventTracks(run, quiet, i - 1, i);
    }
  }

  /** Cleanup is unobservable: with a clock that never runs back and lockout windows of at most an
      hour, a run with cleanups anywhere gives every request the answer it gets without them. */
  lemma CleanupIsUnobservable(run: Run, quiet: Run)
    requires WithoutCleanups(run, quiet) && run.Monotone()
    requires WindowsWithinHour(run.states[0].settings) && BucketsOutlive(run.states[0].buckets) && AllPunctual(quiet)
    ensures Answers(run, |run.events|) == quiet.replies
  {
    RunsTrack(run, quiet, |run.events|);
  }

  // ── Where punctuality ends ─────────────────────────────────────────────────

  /** One cleanup changes what an authenticated request is told exactly if the token is valid, revoked,
      in the right tenant, and the expiry stored with its revocation lies before the cleanup. */
  lemma CleanupRevivesExactly(db: Db, cfg: Config, cleanedAt: Time, now: Time, ctx: Ctx, t: Token)
    ensures Authenticate(db.(jtis := PurgeJtis(db.jtis, cleanedAt)), cfg, now, ctx, t)
            != Authenticate(db, cfg, now, ctx, t)
            <==> match ValidateAccess(t, cfg.keys, now)
                 case None => false
                 case Some(claims) =>
                   claims.jti in db.jtis && db.jtis[claims.jti] < cleanedAt
                   && !(Parse(claims.sub).Some? && Parse(claims.tid).Some?
                        && cfg.master != Parse(claims.tid) && Parse(claims.tid).value != ctx.tenant)
  {}

  /** The same of a bearer that asks for an authorization code, where no tenant is compared. */
  lemma CleanupRevivesAuthorizer(db: Db, cfg: Config, cleanedAt: Time, now: Time, t: Token)
    ensures Identify(db.(jtis := PurgeJtis(db.jtis, cleanedAt)), cfg, now, Bearer(t))
            != Identify(db, cfg, now, Bearer(t))
            <==> match ValidateAccess(t, cfg.keys, now)
                 case None => false
                 case Some(claims) => claims.jti in db.jtis && db.jtis[claims.jti] < cleanedAt
  {}

  /** A token whose revocation is stored with the token's own expiry is never revived while the
      token is unexpired ... */
  lemma OwnExpiryIsEnough(db: Db, cfg: Config, cleanedAt: Time, now: Time, ctx: Ctx, t: Token)
    requires ValidateAccess(t, cfg.keys, now).Some?
    requires var c := ValidateAccess(t, cfg.keys, now).value;
             c.jti in db.jtis && db.jtis[c.jti] == c.exp && now <= c.exp
    requires cleanedAt <= now
    ensures Authenticate(db.(jtis := PurgeJtis(db.jtis, cleanedAt)), cfg, now, ctx, t) == Err(Unauthorized)
  {}

  /** ... but within the leeway it is: logged out, cleaned up, and accepted again. */
  lemma RevivedWithinLeeway(db: Db, cfg: Config, c: Claims, ctx: Ctx)
    requires cfg.keys.leeway >= 1 && c.jti in db.jtis && db.jtis[c.jti] == c.exp
    requires Parse(c.sub).Some? && Parse(c.tid) == Some(ctx.tenant)
    ensures var t, now := AccessToken(c, cfg.keys), c.exp + 1;
            && Authenticate(db, cfg, now, ctx, t) == Err(Unauthorized)
            && Authenticate(db.(jtis := PurgeJtis(db.jtis, now)), cfg, now, ctx, t) == Ok(c)
  {
    AccessTokenValidity(c, cfg.keys, cfg.keys, c.exp + 1);
  }

  /** And a token signed with the previous secret is revived by the next cleanup, however long it
      still runs: logout stores its revocation as expired since the epoch. */
  lemma RevivedAfterRotation(db: Db, cfg: Config, signer: Keys, c: Claims, ctx: Ctx, now: Time, cookie: Option<string>,
                             token: string)
    requires cfg.keys.previous == Some(signer.secret) && signer.secret != cfg.keys.secret
    requires 0 < now <= c.exp && Authenticate(db, cfg, now, ctx, AccessToken(c, signer)) == Ok(c)
    ensures var t := AccessToken(c, signer);
            var out := LogoutSpec(db, cfg, now, ctx, t, cookie, token).db;
            && Authenticate(out, cfg, now, ctx, t) == Err(Unauthorized)
            && Authenticate(CleanupSpec(out, now).db, cfg, now, ctx, t) == Ok(c)
  {
    AccessTokenValidity(c, signer, cfg.keys, now);
    var out := LogoutSpec(db, cfg, now, ctx, AccessToken(c, signer), cookie, token).db;
    assert out.jtis == db.jtis[c.jti := 0];
  }
}
