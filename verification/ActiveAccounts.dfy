/** To whom tokens are issued once an account is deactivated, over whole runs. */
module ActiveAccounts {
  import opened Prelude
  import opened Uuids
  import opened AdminAuth
  import opened Crypto
  import opened Jwt
  import opened Schema
  import opened Handlers
  import opened Runs
  import CodeFlow

  /** Event `i` issues tokens to the account. */
  ghost predicate IssuesTo(run: Run, i: nat, account: Owner)
    requires run.Shaped()
  {
    i < |run.events| && run.replies[i].Tokens? && CodeFlow.IssuedFor(run.replies[i], account)
  }

  predicate Active(users: Users, account: Owner) {
    match VisibleUser(users, account.tenant, account.user)
    case None => false
    case Some(user) => user.active
  }

  /** Event `i` is a code exchange that passes every check, of a code of this account. */
  predicate ExchangesFor(run: Run, i: nat, account: Owner)
    requires run.Shaped()
  {
    i < |run.events| && run.events[i].request.Exchange?
    && var r := ExchangeCheck(run.states[i], run.cfg, run.events[i].now, run.events[i].request.req);
       r.Ok? && Owner(r.value.tenant, r.value.user) == account
  }

  lemma NamedOnce(cfg: Config, o: Owner, email: string, now: Time, minutes: int, mint: Issuance,
                  resources: map<string, RealmAccess>, reply: Reply, account: Owner)
    requires reply.Tokens? && reply.access == AccessFor(cfg, o, email, now, minutes, mint, resources)
    ensures CodeFlow.IssuedFor(reply, account) <==> account == o
  {
    CodeFlow.AccessTokenNames(cfg, o, email, now, minutes, mint, resources);
    if CodeFlow.IssuedFor(reply, account) {
      TextInjective(o.user, account.user);
      TextInjective(o.tenant, account.tenant);
    }
  }

  lemma LoginIssuesToActive(db: Db, cfg: Config, now: Time, ctx: Ctx, email: string, plain: string, mint: Issuance,
                            account: Owner)
    requires var reply := LoginSpec(db, cfg, now, ctx, email, plain, mint).reply;
             reply.Tokens? && CodeFlow.IssuedFor(reply, account)
    ensures Active(db.users, account)
  {
    var v := JudgeLogin(db, now, ctx, email, plain);
    NamedOnce(cfg, Owner(ctx.tenant, v.user), db.users[v.user].email.plain, now,
              SettingsOf(db.settings, ctx.tenant).accessMinutes, mint, map[],
              LoginSpec(db, cfg, now, ctx, email, plain, mint).reply, account);
  }

  lemma RefreshIssuesToActive(db: Db, cfg: Config, now: Time, ctx: Ctx, token: string, mint: Issuance, account: Owner)
    requires var reply := RefreshSpec(db, cfg, now, ctx, token, mint).reply;
             reply.Tokens? && CodeFlow.IssuedFor(reply, account)
    ensures Active(db.users, account)
  {
    var o := RefreshAccount(db, ctx, token, now).value;
    NamedOnce(cfg, o, db.users[o.user].email.plain, now, cfg.jwtMinutes, mint, map[],
              RefreshSpec(db, cfg, now, ctx, token, mint).reply, account);
  }

  lemma ChallengeIssuesToActive(db: Db, cfg: Config, now: Time, ctx: Ctx, mfaToken: Token, totpCode: Option<string>,
                                backupCode: Option<string>, mint: Issuance, account: Owner)
    requires var reply := MfaChallengeSpec(db, cfg, now, ctx, mfaToken, totpCode, backupCode, mint).reply;
             reply.Tokens? && CodeFlow.IssuedFor(reply, account)
    ensures Active(db.users, account)
  {
    var v := JudgeChallenge(db, cfg, now, ctx, mfaToken, totpCode, backupCode);
    NamedOnce(cfg, v.account, db.users[v.account.user].email.plain, now,
              SettingsOf(db.settings, v.account.tenant).accessMinutes, mint, map[],
              MfaChallengeSpec(db, cfg, now, ctx, mfaToken, totpCode, backupCode, mint).reply, account);
  }

  lemma ExchangeIssuesToOwner(db: Db, cfg: Config, now: Time, req: TokenRequest, mint: Issuance, account: Owner)
    ensures var reply, r := ExchangeSpec(db, cfg, now, req, mint).reply, ExchangeCheck(db, cfg, now, req);
            reply.Tokens? && CodeFlow.IssuedFor(reply, account)
            <==> r.Ok? && Owner(r.value.tenant, r.value.user) == account
  {
    var r := ExchangeCheck(db, cfg, now, req);
    if r.Ok? {
      var row, client := r.value, db.clients[req.clientId];
      var minutes := if client.accessMinutes.Some? then client.accessMinutes.value else cfg.jwtMinutes;
      NamedOnce(cfg, Owner(row.tenant, row.user), db.users[row.user].email.plain, now, minutes, mint, mint.resources,
                ExchangeSpec(db, cfg, now, req, mint).reply, account);
    }
  }

  /** Logins, refreshes and challenges issue tokens to active accounts only, ... */
  lemma OthersIssueToActive(run: Run, i: nat, account: Owner)
    requires run.Valid() && IssuesTo(run, i, account) && !run.events[i].request.Exchange?
    ensures Active(run.states[i].users, account)
  {
    var db, now := run.states[i], run.events[i].now;
    match run.events[i].request
    case Login(ctx, email, plain, mint) =>
      LoginAt(run, i);
      LoginIssuesToActive(db, run.cfg, now, ctx, email, plain, mint, account);
    case LoginUniversal(email, plain, mint) =>
      LoginUniversalAt(run, i);
      LoginIssuesToActive(db, run.cfg, now, Resolve(db.users, run.cfg.wrapKey, db.tenants, email).ctx, email, plain,
                          mint, account);
    case Refresh(ctx, token, mint) =>
      RefreshAt(run, i);
      RefreshIssuesToActive(db, run.cfg, now, ctx, token, mint, account);
    case MfaChallenge(ctx, mfaToken, totpCode, backupCode, mint) =>
      MfaChallengeAt(run, i);
      ChallengeIssuesToActive(db, run.cfg, now, ctx, mfaToken, totpCode, backupCode, mint, account);
    case _ => Obeys(run, i);
  }

  /** ... and an account that is not active gets tokens from an event if and only if the event is a code
      exchange that passes its checks for the account. */
  lemma InactiveServedExactly(run: Run, i: nat, account: Owner)
    requires run.Valid() && i < |run.events| && !Active(run.states[i].users, account)
    ensures IssuesTo(run, i, account) <==> ExchangesFor(run, i, account)
  {
    if run.events[i].request.Exchange? {
      ExchangeAt(run, i);
      ExchangeIssuesToOwner(run.states[i], run.cfg, run.events[i].now, run.events[i].request.req,
                            run.events[i].request.mint, account);
    } else if IssuesTo(run, i, account) {
      OthersIssueToActive(run, i, account);
    }
  }

  // ── A code outlives the account's deactivation ─────────────────────────────

  function Redemption(p: AuthorizeParams, code: string, secret: Option<string>, verifier: string): TokenRequest {
    TokenRequest(Some(code), Some(p.redirectUri), p.clientId, secret, Some(verifier))
  }

  /** The account's authorization request will be granted a code, whose client can authenticate itself and
      knows the verifier, and the account's address is readable under its tenant's key. */
  predicate WillBeGranted(db: Db, cfg: Config, now: Time, credential: Credential, p: AuthorizeParams, code: string,
                          secret: Option<string>, verifier: string, account: Owner)
  {
    && Identify(db, cfg, now, credential) == Ok(account)
    && AuthorizeCheck(db.clients, db.codes, account, p, code) == None
    && p.challenge == S256(verifier)
    && AuthenticClient(db.clients, NewCode(account, p, now), Redemption(p, code, secret, verifier)).Some?
    && var key := TenantKey(db.tenants, cfg.wrapKey, account.tenant);
       var user := VisibleUser(db.users, account.tenant, account.user);
       key.Ok? && user.Some? && Open(user.value.email, key.value).Some?
  }

  lemma GrantStoresCode(db: Db, cfg: Config, now: Time, credential: Credential, p: AuthorizeParams, code: string,
                        secret: Option<string>, verifier: string, account: Owner)
    requires WillBeGranted(db, cfg, now, credential, p, code, secret, verifier, account)
    ensures AuthorizeSpec(db, cfg, now, credential, p, code)
            == Outcome(db.(codes := db.codes[code := NewCode(account, p, now)],
                           sessions := SessionsSeen(db.sessions, credential, now)), CodeIssued(code))
  {}

  lemma AdminDeactivates(db: Db, cfg: Config, now: Time, headers: Headers, account: Owner)
    requires AdminAccount(cfg, now, headers, account.user) == Ok(account)
    requires TenantKey(db.tenants, cfg.wrapKey, account.tenant).Ok?
             && VisibleUser(db.users, account.tenant, account.user).Some?
    ensures UpdateUserSpec(db, cfg, now, headers, account.user, None, None, false)
            == Outcome(db.(users := SetActive(db.users, account.user, false)), Done)
  {}

  lemma CodeStillRedeems(db: Db, cfg: Config, granted: Time, now: Time, p: AuthorizeParams, code: string,
                         secret: Option<string>, verifier: string, account: Owner)
    requires now <= granted + 600 && p.challenge == S256(verifier)
    requires code in db.codes && db.codes[code] == NewCode(account, p, granted)
    requires AuthenticClient(db.clients, NewCode(account, p, granted), Redemption(p, code, secret, verifier)).Some?
    requires var key := TenantKey(db.tenants, cfg.wrapKey, account.tenant);
             var user := VisibleUser(db.users, account.tenant, account.user);
             key.Ok? && user.Some? && Open(user.value.email, key.value).Some?
    ensures ExchangeCheck(db, cfg, now, Redemption(p, code, secret, verifier)) == Ok(NewCode(account, p, granted))
  {}

  lemma CodeGranted(run: Run, credential: Credential, p: AuthorizeParams, code: string, secret: Option<string>,
                    verifier: string, account: Owner)
    requires run.Valid() && |run.events| >= 1 && run.events[0].request == Authorize(credential, p, code)
    requires WillBeGranted(run.states[0], run.cfg, run.events[0].now, credential, p, code, secret, verifier, account)
    ensures run.states[1]
            == run.states[0].(codes := run.states[0].codes[code := NewCode(account, p, run.events[0].now)],
                              sessions := SessionsSeen(run.states[0].sessions, credential, run.events[0].now))
  {
    AuthorizeAt(run, 0);
    GrantStoresCode(run.states[0], run.cfg, run.events[0].now, credential, p, code, secret, verifier, account);
  }

  lemma CodeThenDeactivation(run: Run, credential: Credential, p: AuthorizeParams, code: string, secret: Option<string>,
                             verifier: string, account: Owner, headers: Headers)
    requires run.Valid() && |run.events| >= 2
    requires run.events[0].request == Authorize(credential, p, code)
    requires run.events[1].request == UpdateUser(headers, account.user, None, None, false)
    requires WillBeGranted(run.states[0], run.cfg, run.events[0].now, credential, p, code, secret, verifier, account)
    requires AdminAccount(run.cfg, run.events[1].now, headers, account.user) == Ok(account)
    ensures run.replies[1] == Done
    ensures run.states[2]
            == run.states[0].(codes := run.states[0].codes[code := NewCode(account, p, run.events[0].now)],
                              sessions := SessionsSeen(run.states[0].sessions, credential, run.events[0].now),
                              users := SetActive(run.states[0].users, account.user, false))
  {
    CodeGranted(run, credential, p, code, secret, verifier, account);
    UpdateUserAt(run, 1);
    AdminDeactivates(run.states[1], run.cfg, run.events[1].now, headers, account);
  }

  lemma CodeIsServed(run: Run, i: nat, granted: Time, p: AuthorizeParams, code: string, secret: Option<string>,
                     verifier: string, account: Owner, mint: Issuance)
    requires run.Valid() && i < |run.events|
    requires run.events[i].request == Exchange(Redemption(p, code, secret, verifier), mint)
    requires ExchangeCheck(run.states[i], run.cfg, run.events[i].now, Redemption(p, code, secret, verifier))
             == Ok(NewCode(account, p, granted))
    ensures IssuesTo(run, i, account)
  {
    ExchangeAt(run, i);
    ExchangeIssuesToOwner(run.states[i], run.cfg, run.events[i].now, Redemption(p, code, secret, verifier), mint,
                          account);
  }

  /** The witness: whatever account of whatever database obtains a code, is deactivated by an
      administrator and has the code redeemed within ten minutes, is issued tokens while inactive. */
  lemma DeactivatedAccountIsServed(db: Db, cfg: Config, credential: Credential, p: AuthorizeParams, code: string,
                                   secret: Option<string>, verifier: string, account: Owner, headers: Headers,
                                   mint: Issuance, granted: Time, deactivated: Time, redeemed: Time)
    returns (run: Run)
    requires WillBeGranted(db, cfg, granted, credential, p, code, secret, verifier, account)
    requires AdminAccount(cfg, deactivated, headers, account.user) == Ok(account) && redeemed <= granted + 600
    ensures run.Valid() && run.cfg == cfg && run.states[0] == db
    ensures run.events == [Event(granted, Authorize(credential, p, code)),
                           Event(deactivated, UpdateUser(headers, account.user, None, None, false)),
                           Event(redeemed, Exchange(Redemption(p, code, secret, verifier), mint))]
    ensures run.replies[1] == Done && !Active(run.states[2].users, account) && IssuesTo(run, 2, account)
  {
    var grant := Event(granted, Authorize(credential, p, code));
    var update := Event(deactivated, UpdateUser(headers, account.user, None, None, false));
    var exchange := Event(redeemed, Exchange(Redemption(p, code, secret, verifier), mint));
    run := RunOf(cfg, db, [grant, update, exchange]);
    assert run.events[0] == grant && run.events[1] == update && run.events[2] == exchange;
    CodeThenDeactivation(run, credential, p, code, secret, verifier, account, headers);
    CodeStillRedeems(run.states[2], cfg, granted, redeemed, p, code, secret, verifier, account);
    CodeIsServed(run, 2, granted, p, code, secret, verifier, account, mint);
  }
}
