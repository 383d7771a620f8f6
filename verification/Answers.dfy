/** What an answer of tokens is worth: the access token is valid for its lifetime and says what it should,
    the refresh token and the session are on file for the account. */
module Answers {
  import opened Prelude
  import opened Uuids
  import opened Crypto
  import opened Jwt
  import opened Schema
  import opened Handlers
  import opened Runs
  import opened Conditions

  // ── What the settings say ──────────────────────────────────────────────────

  /** Lifetime of the access token in minutes: the client's or the configured one for a code, the configured one
      for a refresh, the tenant's for a sign-in. */
  function MinutesFor(db: Db, cfg: Config, r: Request, t: Uuid): int {
    match r
    case Exchange(req, _) =>
      if req.clientId in db.clients && db.clients[req.clientId].accessMinutes.Some?
      then db.clients[req.clientId].accessMinutes.value else cfg.jwtMinutes
    case Refresh(_, _, _) => cfg.jwtMinutes
    case _ => if t in db.settings then db.settings[t].accessMinutes else 15
  }

  /** Lifetime of the refresh token in days, likewise. */
  function DaysFor(db: Db, cfg: Config, r: Request, t: Uuid): int {
    match r
    case Exchange(req, _) =>
      if req.clientId in db.clients && db.clients[req.clientId].refreshDays.Some?
      then db.clients[req.clientId].refreshDays.value else cfg.refreshDays
    case Refresh(_, _, _) => cfg.refreshDays
    case _ => if t in db.settings then db.settings[t].refreshDays else 30
  }

  /** What the access token says: the drawn id, the account, its address, now and the end of its lifetime, and
      what the role tables granted, per client only after a code exchange. */
  function ClaimsFor(db: Db, cfg: Config, now: Time, r: Request, account: Owner): Claims
    requires MintOf(r).Some? && account.user in db.users
  {
    var mint := MintOf(r).value;
    Claims(mint.jti, Text(account.user), Text(account.tenant), db.users[account.user].email.plain,
           now, now + 60 * MinutesFor(db, cfg, r, account.tenant),
           mint.realm, if r.Exchange? then mint.resources else map[])
  }

  // ── What is handed out ─────────────────────────────────────────────────────

  /** The access token is one of the account's, with these claims. */
  ghost predicate AccessSound(db: Db, cfg: Config, now: Time, r: Request, reply: Reply, account: Owner) {
    && MintOf(r).Some? && account.user in db.users && db.users[account.user].tenant == account.tenant && reply.Tokens?
    && reply.access == AccessToken(ClaimsFor(db, cfg, now, r, account), cfg.keys)
  }

  /** The refresh token is on file: unrevoked, for the account, with the lifetime that the settings say. */
  predicate RefreshSound(db: Db, cfg: Config, now: Time, r: Request, o: Outcome, account: Owner) {
    o.reply.Tokens?
    && var h := Sha256(o.reply.refresh);
       h in o.db.refresh && o.db.refresh[h].tenant == account.tenant && o.db.refresh[h].user == account.user
       && o.db.refresh[h].revokedAt == None
       && o.db.refresh[h].expiresAt == now + 86400 * DaysFor(db, cfg, r, account.tenant)
  }

  /** So is the session, if one is handed out; a code and a refresh hand out none. */
  predicate SessionSound(db: Db, cfg: Config, now: Time, r: Request, o: Outcome, account: Owner) {
    o.reply.Tokens?
    && match o.reply.session
       case None => r.Refresh? || r.Exchange? || MintOf(r).None? || MintOf(r).value.session in db.sessions
       case Some(s) =>
         !r.Refresh? && !r.Exchange?
         && s in o.db.sessions && o.db.sessions[s].tenant == account.tenant && o.db.sessions[s].user == account.user
         && o.db.sessions[s].expiresAt == now + 86400 * DaysFor(db, cfg, r, account.tenant)
         && o.db.sessions[s].lastSeen == now
  }

  /** The request's own credential stands for the account: the address, the refresh token, the code, or the MFA
      token shown. */
  predicate Entitled(db: Db, cfg: Config, now: Time, r: Request, account: Owner) {
    match r
    case Login(ctx, email, _, _) =>
      account.tenant == ctx.tenant && account.user in db.users
      && db.users[account.user].lookup == Lookup(email, ctx.key)
    case LoginUniversal(email, _, _) => account.user in db.users && db.users[account.user].lookup.email == email
    case Refresh(_, token, _) =>
      var h := Sha256(token);
      h in db.refresh && db.refresh[h].tenant == account.tenant && db.refresh[h].user == account.user
    case Exchange(req, _) =>
      req.code.Some? && req.code.value in db.codes && db.codes[req.code.value].tenant == account.tenant
      && db.codes[req.code.value].user == account.user
    case MfaChallenge(ctx, t, _, _, _) =>
      var claims := VerifyMfa(t, cfg.keys, now);
      && account.tenant == ctx.tenant && claims.Some?
      && Parse(claims.value.sub) == Some(account.user) && Parse(claims.value.tid) == Some(account.tenant)
    case _ => false
  }

  ghost predicate Sound(db: Db, cfg: Config, now: Time, r: Request, o: Outcome, account: Owner) {
    && Entitled(db, cfg, now, r, account) && AccessSound(db, cfg, now, r, o.reply, account)
    && RefreshSound(db, cfg, now, r, o, account) && SessionSound(db, cfg, now, r, o, account)
  }

  lemma AccessForIs(cfg: Config, o: Owner, email: string, now: Time, minutes: int, mint: Issuance,
                    resources: map<string, RealmAccess>, c: Claims)
    requires c == Claims(mint.jti, Text(o.user), Text(o.tenant), email, now, now + 60 * minutes, mint.realm, resources)
    ensures AccessFor(cfg, o, email, now, minutes, mint, resources) == AccessToken(c, cfg.keys)
  {}

  lemma SignedInAccess(db: Db, cfg: Config, now: Time, r: Request, account: Owner)
    requires r.Login? || r.LoginUniversal? || r.MfaChallenge?
    requires account.user in db.users && db.users[account.user].tenant == account.tenant
    ensures AccessSound(db, cfg, now, r, SignedIn(db, cfg, account, db.users[account.user].email.plain, now, r.mint),
                        account)
  {
    AccessForIs(cfg, account, db.users[account.user].email.plain, now, MinutesFor(db, cfg, r, account.tenant), r.mint,
                map[], ClaimsFor(db, cfg, now, r, account));
  }

  lemma SignedInDays(db: Db, cfg: Config, r: Request, t: Uuid)
    requires r.Login? || r.LoginUniversal? || r.MfaChallenge?
    ensures SettingsOf(db.settings, t).refreshDays == DaysFor(db, cfg, r, t)
  {}

  lemma SignedInSound(db: Db, cfg: Config, now: Time, r: Request, o: Outcome, account: Owner)
    requires (r.Login? || r.LoginUniversal? || r.MfaChallenge?) && Entitled(db, cfg, now, r, account)
    requires account.user in db.users && db.users[account.user].tenant == account.tenant
    requires o.reply == SignedIn(db, cfg, account, db.users[account.user].email.plain, now, r.mint)
    requires var days := SettingsOf(db.settings, account.tenant).refreshDays;
             && o.db.refresh == WithRefresh(db.refresh, Some(account), r.mint, now, days)
             && o.db.sessions == WithSession(db.sessions, Some(account), r.mint, now, days)
    ensures Sound(db, cfg, now, r, o, account)
  {
    SignedInAccess(db, cfg, now, r, account);
    SignedInDays(db, cfg, r, account.tenant);
    assert RefreshSound(db, cfg, now, r, o, account);
  }

  lemma LoginSound(db: Db, cfg: Config, now: Time, r: Request, ctx: Ctx) returns (account: Owner)
    requires r.LoginUniversal? || (r.Login? && r.ctx == ctx)
    requires LoginSpec(db, cfg, now, ctx, r.email, r.plain, r.mint).reply.Tokens?
    ensures Sound(db, cfg, now, r, LoginSpec(db, cfg, now, ctx, r.email, r.plain, r.mint), account)
  {
    account := Owner(ctx.tenant, JudgeLogin(db, now, ctx, r.email, r.plain).user);
    SignedInSound(db, cfg, now, r, LoginSpec(db, cfg, now, ctx, r.email, r.plain, r.mint), account);
  }

  lemma RefreshAccess(db: Db, cfg: Config, now: Time, r: Request, account: Owner)
    requires r.Refresh? && RefreshAccount(db, r.ctx, r.token, now) == Ok(account)
    ensures Entitled(db, cfg, now, r, account)
    ensures AccessSound(db, cfg, now, r, RefreshSpec(db, cfg, now, r.ctx, r.token, r.mint).reply, account)
  {
    AccessForIs(cfg, account, db.users[account.user].email.plain, now, cfg.jwtMinutes, r.mint, map[],
                ClaimsFor(db, cfg, now, r, account));
  }

  lemma RefreshSoundAt(db: Db, cfg: Config, now: Time, r: Request) returns (account: Owner)
    requires r.Refresh? && RefreshSpec(db, cfg, now, r.ctx, r.token, r.mint).reply.Tokens?
    ensures Sound(db, cfg, now, r, RefreshSpec(db, cfg, now, r.ctx, r.token, r.mint), account)
  {
    account := RefreshAccount(db, r.ctx, r.token, now).value;
    RefreshAccess(db, cfg, now, r, account);
    assert RefreshSound(db, cfg, now, r, RefreshSpec(db, cfg, now, r.ctx, r.token, r.mint), account);
  }

  lemma ExchangeAccess(db: Db, cfg: Config, now: Time, r: Request, account: Owner)
    requires r.Exchange? && ExchangeCheck(db, cfg, now, r.req).Ok?
    requires var row := ExchangeCheck(db, cfg, now, r.req).value; account == Owner(row.tenant, row.user)
    ensures Entitled(db, cfg, now, r, account)
    ensures AccessSound(db, cfg, now, r, ExchangeSpec(db, cfg, now, r.req, r.mint).reply, account)
  {
    AccessForIs(cfg, account, db.users[account.user].email.plain, now, MinutesFor(db, cfg, r, account.tenant), r.mint,
                r.mint.resources, ClaimsFor(db, cfg, now, r, account));
  }

  lemma ExchangeSound(db: Db, cfg: Config, now: Time, r: Request) returns (account: Owner)
    requires r.Exchange? && ExchangeSpec(db, cfg, now, r.req, r.mint).reply.Tokens?
    ensures Sound(db, cfg, now, r, ExchangeSpec(db, cfg, now, r.req, r.mint), account)
  {
    var row := ExchangeCheck(db, cfg, now, r.req).value;
    account := Owner(row.tenant, row.user);
    ExchangeAccess(db, cfg, now, r, account);
    assert RefreshSound(db, cfg, now, r, ExchangeSpec(db, cfg, now, r.req, r.mint), account);
  }

  lemma ChallengeSound(db: Db, cfg: Config, now: Time, r: Request) returns (account: Owner)
    requires r.MfaChallenge?
    requires MfaChallengeSpec(db, cfg, now, r.ctx, r.mfaToken, r.totpCode, r.backupCode, r.mint).reply.Tokens?
    ensures Sound(db, cfg, now, r,
                  MfaChallengeSpec(db, cfg, now, r.ctx, r.mfaToken, r.totpCode, r.backupCode, r.mint), account)
  {
    account := JudgeChallenge(db, cfg, now, r.ctx, r.mfaToken, r.totpCode, r.backupCode).account;
    SignedInSound(db, cfg, now, r,
                  MfaChallengeSpec(db, cfg, now, r.ctx, r.mfaToken, r.totpCode, r.backupCode, r.mint), account);
  }

  ghost predicate SoundAt(run: Run, i: nat, account: Owner)
    requires run.Shaped() && i < |run.events|
  {
    Sound(run.states[i], run.cfg, run.events[i].now, run.events[i].request,
          Outcome(run.states[i + 1], run.replies[i]), account)
  }

  /** Whatever event answers with tokens, in whatever run: they are sound, for an account that the request's
      credential stands for. */
  lemma TokensAreSound(run: Run, i: nat) returns (account: Owner)
    requires run.Valid() && i < |run.events| && run.replies[i].Tokens?
    ensures SoundAt(run, i, account)
  {
    var db, now, r := run.states[i], run.events[i].now, run.events[i].request;
    Obeys(run, i);
    match r
    case Login(ctx, _, _, _) =>
      LoginAt(run, i);
      account := LoginSound(db, run.cfg, now, r, ctx);
    case LoginUniversal(email, _, _) =>
      LoginUniversalAt(run, i);
      account := LoginSound(db, run.cfg, now, r, Resolve(db.users, run.cfg.wrapKey, db.tenants, email).ctx);
    case Refresh(_, _, _) =>
      RefreshAt(run, i);
      account := RefreshSoundAt(db, run.cfg, now, r);
    case Exchange(_, _) =>
      ExchangeAt(run, i);
      account := ExchangeSound(db, run.cfg, now, r);
    case MfaChallenge(_, _, _, _, _) =>
      MfaChallengeAt(run, i);
      account := ChallengeSound(db, run.cfg, now, r);
  }

  /** The access token handed out at `i` validates exactly until its lifetime and the leeway have passed, and
      then yields exactly these claims. */
  lemma AccessLastsExactly(run: Run, i: nat, account: Owner, t: Time)
    requires run.Valid() && i < |run.events| && SoundAt(run, i, account)
    ensures var minutes := MinutesFor(run.states[i], run.cfg, run.events[i].request, account.tenant);
            ValidateAccess(run.replies[i].access, run.cfg.keys, t)
            == if t <= run.events[i].now + 60 * minutes + run.cfg.keys.leeway
               then Some(ClaimsFor(run.states[i], run.cfg, run.events[i].now, run.events[i].request, account))
               else None
  {
    AccessTokenValidity(ClaimsFor(run.states[i], run.cfg, run.events[i].now, run.events[i].request, account),
                        run.cfg.keys, run.cfg.keys, t);
  }

  lemma LoginHandsOut(db: Db, cfg: Config, now: Time, ctx: Ctx, email: string, plain: string, mint: Issuance)
    ensures var o := LoginSpec(db, cfg, now, ctx, email, plain, mint);
            o.db.refresh == db.refresh || (o.reply.Tokens? && o.reply.refresh == mint.refresh)
  {}

  lemma ChallengeHandsOut(db: Db, cfg: Config, now: Time, r: Request)
    requires r.MfaChallenge?
    ensures var o := MfaChallengeSpec(db, cfg, now, r.ctx, r.mfaToken, r.totpCode, r.backupCode, r.mint);
            o.db.refresh == db.refresh || (o.reply.Tokens? && o.reply.refresh == r.mint.refresh)
  {}

  /** And nothing else is ever stored: a refresh token that comes on file is the one handed out. */
  lemma StoredIsHandedOut(run: Run, i: nat, h: Digest)
    requires run.Valid() && i < |run.events| && h in run.states[i + 1].refresh && h !in run.states[i].refresh
    ensures run.replies[i].Tokens? && h == Sha256(run.replies[i].refresh)
  {
    var db, now := run.states[i], run.events[i].now;
    Obeys(run, i);
    match run.events[i].request
    case Login(ctx, email, plain, mint) =>
      LoginAt(run, i);
      LoginHandsOut(db, run.cfg, now, ctx, email, plain, mint);
    case LoginUniversal(email, plain, mint) =>
      LoginUniversalAt(run, i);
      LoginHandsOut(db, run.cfg, now, Resolve(db.users, run.cfg.wrapKey, db.tenants, email).ctx, email, plain, mint);
    case Refresh(_, _, _) => RefreshAt(run, i);
    case Exchange(_, _) => ExchangeAt(run, i);
    case MfaChallenge(_, _, _, _, _) =>
      MfaChallengeAt(run, i);
      ChallengeHandsOut(db, run.cfg, now, run.events[i].request);
    case _ =>
  }

  // ── What a refresh accepts ─────────────────────────────────────────────────

  /** The token is on file in the tenant, unrevoked and unexpired, and so is its account, active. */
  predicate TokenFits(db: Db, ctx: Ctx, token: string, now: Time) {
    var h := Sha256(token);
    && h in db.refresh && db.refresh[h].tenant == ctx.tenant && db.refresh[h].revokedAt == None
    && now < db.refresh[h].expiresAt
    && db.refresh[h].user in db.users && db.users[db.refresh[h].user].tenant == ctx.tenant
    && db.users[db.refresh[h].user].active
  }

  /** And the account's address is sealed under the tenant's key. */
  predicate RefreshFits(db: Db, ctx: Ctx, token: string, now: Time) {
    TokenFits(db, ctx, token, now) && db.users[db.refresh[Sha256(token)].user].email.key == ctx.key
  }

  lemma RefreshSpecServes(db: Db, cfg: Config, now: Time, ctx: Ctx, token: string, mint: Issuance)
    ensures var o := RefreshSpec(db, cfg, now, ctx, token, mint);
            if RefreshFits(db, ctx, token, now) then o.reply.Tokens?
            else o == Refuse(db, if TokenFits(db, ctx, token, now) then CryptoError else Unauthorized)
  {}

  /** A refresh is answered with tokens if and only if the token shown fits; otherwise it is refused and changes
      nothing. */
  lemma RefreshServedExactly(run: Run, i: nat)
    requires run.Valid() && i < |run.events| && run.events[i].request.Refresh?
    ensures var r, db, now := run.events[i].request, run.states[i], run.events[i].now;
            if RefreshFits(db, r.ctx, r.token, now) then run.replies[i].Tokens?
            else run.states[i + 1] == db
                 && run.replies[i]
                    == Refused(if TokenFits(db, r.ctx, r.token, now) then CryptoError else Unauthorized)
  {
    var r := run.events[i].request;
    RefreshAt(run, i);
    RefreshSpecServes(run.states[i], run.cfg, run.events[i].now, r.ctx, r.token, r.mint);
  }

  /** A refresh token that was handed out, shown in its tenant while its row stands and its account is served
      there, is accepted exactly until its lifetime ends. */
  lemma HandedOutIsAccepted(run: Run, i: nat, account: Owner, k: nat)
    requires run.Valid() && i < k < |run.events| && SoundAt(run, i, account)
    requires run.events[k].request.Refresh? && run.events[k].request.token == run.replies[i].refresh
    requires run.events[k].request.ctx.tenant == account.tenant
    requires AccountServes(run.states[k].users, run.events[k].request.ctx, account.user)
    requires var h := Sha256(run.replies[i].refresh);
             h in run.states[k].refresh && run.states[k].refresh[h] == run.states[i + 1].refresh[h]
    ensures var days := DaysFor(run.states[i], run.cfg, run.events[i].request, account.tenant);
            run.replies[k].Tokens? <==> run.events[k].now < run.events[i].now + 86400 * days
  {
    RefreshServedExactly(run, k);
  }
}
