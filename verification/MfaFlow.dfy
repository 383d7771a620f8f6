/** The second factor over whole runs: what stands behind every token pair that a challenge
    hands out. */
module MfaFlow {
  import opened Prelude
  import opened Uuids
  import opened Crypto
  import opened Jwt
  import opened Schema
  import opened Handlers
  import opened Runs

  // ── A challenge follows a password check ───────────────────────────────────

  /** The reply hands out `t`. */
  predicate Carries(reply: Reply, t: Token) {
    reply == MfaRequired(t) || (reply.Tokens? && reply.access == t)
  }

  /** The service over rotations of the signing secret: each run goes on where the one before ended,
      under a secret of its own, and still accepts the secret before it. */
  ghost predicate Rotations(epochs: seq<Run>) {
    && (forall e :: 0 <= e < |epochs| ==> epochs[e].Valid())
    && (forall e :: 0 < e < |epochs| ==> Continues(epochs[e - 1], epochs[e]))
    && (epochs != [] ==> epochs[0].cfg.keys.previous == None)
  }

  ghost predicate Continues(earlier: Run, later: Run) {
    later.cfg.keys.previous == Some(earlier.cfg.keys.secret)
    && later.Shaped() && earlier.Shaped() && later.states[0] == earlier.states[|earlier.events|]
  }

  predicate Trusts(keys: Keys, secret: string) { secret == keys.secret || keys.previous == Some(secret) }

  predicate Earlier(d: nat, i: nat, e: nat, j: nat) { d < e || (d == e && i < j) }

  /** Secrets do not leak: a token shown at a challenge under a secret that the service trusts was got from
      an earlier answer, unless it is a token of another kind, whoever had it issued and by whatever handler. */
  ghost predicate Unforged(epochs: seq<Run>) {
    forall e: nat, j: nat :: e < |epochs| && j < |epochs[e].events| ==> ShowsReceived(epochs, e, j)
  }

  ghost predicate ShowsReceived(epochs: seq<Run>, e: nat, j: nat)
    requires e < |epochs| && j < |epochs[e].events|
  {
    var r := epochs[e].events[j].request;
    r.MfaChallenge? && Trusts(epochs[e].cfg.keys, r.mfaToken.key)
    ==> (exists d: nat, i: nat :: HandedOut(epochs, d, i, r.mfaToken) && Earlier(d, i, e, j))
        || AccessShaped(r.mfaToken) || exists c: ClientClaims :: r.mfaToken.payload == ClientClaimsJson(c)
  }

  predicate HandedOut(epochs: seq<Run>, d: nat, i: nat, t: Token) {
    d < |epochs| && i < |epochs[d].replies| && Carries(epochs[d].replies[i], t)
  }

  /** Event `i` is a login for which `account`'s own password was checked. */
  ghost predicate ChecksPassword(run: Run, i: nat, account: Owner)
    requires run.Shaped()
  {
    i < |run.events|
    && match run.events[i].request
       case Login(ctx, email, plain, _) =>
         ctx.tenant == account.tenant && KnowsPassword(run.states[i], account, email, plain)
       case LoginUniversal(email, plain, _) => KnowsPassword(run.states[i], account, email, plain)
       case _ => false
  }

  predicate KnowsPassword(db: Db, account: Owner, email: string, plain: string) {
    match VisibleUser(db.users, account.tenant, account.user)
    case None => false
    case Some(user) => user.active && user.lookup.email == email && VerifyPassword(plain, user.password)
  }

  lemma PromptNamesAccount(db: Db, cfg: Config, now: Time, ctx: Ctx, email: string, plain: string, mint: Issuance)
    returns (account: Owner)
    requires LoginSpec(db, cfg, now, ctx, email, plain, mint).reply.MfaRequired?
    ensures account.tenant == ctx.tenant && KnowsPassword(db, account, email, plain)
    ensures LoginSpec(db, cfg, now, ctx, email, plain, mint).reply == MfaRequired(MfaFor(cfg, account, now))
  {
    account := Owner(ctx.tenant, JudgeLogin(db, now, ctx, email, plain).user);
  }

  /** An MFA token comes out of a login that checked the password of the account it names. */
  lemma PromptFollowsPassword(run: Run, i: nat) returns (account: Owner)
    requires run.Valid() && i < |run.events| && run.replies[i].MfaRequired?
    ensures ChecksPassword(run, i, account)
    ensures run.replies[i] == MfaRequired(MfaFor(run.cfg, account, run.events[i].now))
  {
    Obeys(run, i);
    var db, now, r := run.states[i], run.events[i].now, run.events[i].request;
    if r.Login? {
      LoginAt(run, i);
      account := PromptNamesAccount(db, run.cfg, now, r.ctx, r.email, r.plain, r.mint);
    } else {
      LoginUniversalAt(run, i);
      var where := Resolve(db.users, run.cfg.wrapKey, db.tenants, r.email);
      account := PromptNamesAccount(db, run.cfg, now, where.ctx, r.email, r.plain, r.mint);
    }
  }

  lemma OnlyMfaTokensVerify(t: Token, keys: Keys, now: int)
    requires VerifyMfa(t, keys, now).Some?
    ensures Trusts(keys, t.key) && !AccessShaped(t)
    ensures !exists c: ClientClaims :: t.payload == ClientClaimsJson(c)
  {
    var signer := Keys(t.key, None, 0);
    var m := MfaClaims("", "", 0, 0, "");
    forall a: Claims | t.payload == ClaimsJson(a) ensures false {
      KindsNeverMix(a, ClientClaims("", "", "", 0, 0, "", []), m, signer, keys, now);
    }
    forall c: ClientClaims | t.payload == ClientClaimsJson(c) ensures false {
      KindsNeverMix(Claims("", "", "", "", 0, 0, RealmAccess([], []), map[]), c, m, signer, keys, now);
    }
  }

  /** Event `j` is a challenge that was answered with tokens. */
  predicate Passes(run: Run, j: nat)
    requires run.Shaped()
  {
    j < |run.events| && run.events[j].request.MfaChallenge? && run.replies[j].Tokens?
  }

  /** The second factor shown at `j`: a TOTP code of the account's enabled secret, or else a backup
      code whose unused row is used up in the same step. */
  ghost predicate ShowsFactor(run: Run, j: nat, account: Owner)
    requires run.Shaped() && Passes(run, j)
  {
    var db, now, r := run.states[j], run.events[j].now, run.events[j].request;
    var rows, after := db.backup, run.states[j + 1].backup;
    && MfaEnabled(db.totp, account)
    && (|| (&& r.totpCode.Some? && after == rows
            && Open(db.totp[account].secret, r.ctx.key).Some?
            && TotpMatches(run.cfg, db.totp[account].secret.plain, r.totpCode.value, now))
        || (&& r.totpCode.None? && r.backupCode.Some?
            && exists k ::
                 0 <= k < |rows| && Redeemable(rows[k], account, HashBackup(run.cfg.upper, r.backupCode.value))
                 && after == rows[k := rows[k].(usedAt := Some(now))]))
  }

  /** What a passed challenge saw: a valid MFA token of an account in this tenant, and its factor. */
  lemma PassedChallenge(run: Run, j: nat) returns (account: Owner)
    requires run.Valid() && Passes(run, j)
    ensures Challenged(run.cfg, run.events[j].now, run.events[j].request.ctx, run.events[j].request.mfaToken)
            == Some(account)
    ensures ShowsFactor(run, j, account)
  {
    MfaChallengeAt(run, j);
    var db, now, r := run.states[j], run.events[j].now, run.events[j].request;
    account := Challenged(run.cfg, now, r.ctx, r.mfaToken).value;
    if r.totpCode.None? {
      var k := FindBackup(db.backup, account, HashBackup(run.cfg.upper, r.backupCode.value));
      assert Redeemable(db.backup[k], account, HashBackup(run.cfg.upper, r.backupCode.value));
    }
  }

  lemma ChallengedIsPrompted(signer: Config, cfg: Config, now: Time, ctx: Ctx, account: Owner, asked: Time)
    requires Trusts(cfg.keys, signer.keys.secret)
    ensures Challenged(cfg, now, ctx, MfaFor(signer, account, asked))
            == if now <= asked + 300 + cfg.keys.leeway && account.tenant == ctx.tenant then Some(account) else None
  {
    MfaTokenValidity(MfaClaims(Text(account.user), Text(account.tenant), asked, asked + MFA_MINUTES * MINUTE,
                               MFA_PURPOSE),
                     signer.keys, cfg.keys, now);
    ParseText(account.user);
    ParseText(account.tenant);
  }

  /** A token that is handed out at `i` and passes a challenge is the prompt of a login at `i`. */
  lemma PromptIsChallenged(run: Run, i: nat, t: Token, cfg: Config, now: Time, ctx: Ctx, account: Owner)
    requires run.Valid() && i < |run.events| && Carries(run.replies[i], t) && !AccessShaped(t)
    requires Challenged(cfg, now, ctx, t) == Some(account) && Trusts(cfg.keys, t.key)
    ensures ChecksPassword(run, i, account) && t.key == run.cfg.keys.secret
    ensures now <= run.events[i].now + 300 + cfg.keys.leeway && account.tenant == ctx.tenant
  {
    Obeys(run, i);
    var prompted := PromptFollowsPassword(run, i);
    ChallengedIsPrompted(run.cfg, cfg, now, ctx, prompted, run.events[i].now);
  }

  /** Correspondence, whatever rotations happen in between: behind every token pair of a challenge
      stands an earlier login, at most 300 seconds and the leeway before and under the same signing secret or
      the one just replaced, that checked the password of the very account whose second factor the
      challenge sees. */
  lemma ChallengeFollowsLogin(epochs: seq<Run>, e: nat, j: nat) returns (d: nat, i: nat, account: Owner)
    requires Rotations(epochs) && Unforged(epochs) && e < |epochs| && Passes(epochs[e], j)
    ensures d < |epochs| && Earlier(d, i, e, j) && ChecksPassword(epochs[d], i, account)
    ensures epochs[e].events[j].now <= epochs[d].events[i].now + 300 + epochs[e].cfg.keys.leeway
    ensures epochs[d].cfg.keys.secret == epochs[e].cfg.keys.secret
            || (e > 0 && epochs[d].cfg.keys.secret == epochs[e - 1].cfg.keys.secret)
    ensures account.tenant == epochs[e].events[j].request.ctx.tenant && ShowsFactor(epochs[e], j, account)
  {
    var run := epochs[e];
    account := PassedChallenge(run, j);
    var t, ctx, now := run.events[j].request.mfaToken, run.events[j].request.ctx, run.events[j].now;
    OnlyMfaTokensVerify(t, run.cfg.keys, now);
    assert ShowsReceived(epochs, e, j);
    d, i :| HandedOut(epochs, d, i, t) && Earlier(d, i, e, j);
    PromptIsChallenged(epochs[d], i, t, run.cfg, now, ctx, account);
    assert e > 0 ==> Continues(epochs[e - 1], epochs[e]);
  }

  // ── An enabled secret was confirmed ────────────────────────────────────────

  /** Event `k` is a confirmation of `secret` by a code that matches it. */
  ghost predicate Confirms(run: Run, k: nat, account: Owner, secret: Sealed)
    requires run.Shaped()
  {
    k < |run.events| && run.events[k].request.MfaConfirm? && run.replies[k] == Done
    && var r := run.events[k].request;
       && account.tenant == r.ctx.tenant
       && account in run.states[k].totp && run.states[k].totp[account].secret == secret
       && Open(secret, r.ctx.key).Some?
       && TotpMatches(run.cfg, secret.plain, r.code, run.events[k].now)
  }

  predicate EnabledWith(totp: map<Owner, TotpRow>, account: Owner, secret: Sealed) {
    account in totp && totp[account] == TotpRow(secret, true)
  }

  /** A secret becomes enabled by its own confirmation and in no other way. */
  lemma OnlyConfirmEnables(run: Run, i: nat, account: Owner, secret: Sealed)
    requires run.Valid() && i < |run.events| && EnabledWith(run.states[i + 1].totp, account, secret)
    ensures EnabledWith(run.states[i].totp, account, secret) || Confirms(run, i, account, secret)
  {
    Obeys(run, i);
    match run.events[i].request
    case MfaSetup(_, _, _) => MfaSetupAt(run, i);
    case MfaConfirm(_, _, _) => MfaConfirmAt(run, i);
    case MfaDisable(_, _, _) => MfaDisableAt(run, i);
    case AdminDisableMfa(_, _) => AdminDisableMfaAt(run, i);
    case _ =>
  }

  /** Every enabled secret was earlier confirmed by a valid code against that very secret, and has
      been enabled ever since. */
  lemma {:induction false} EnabledWasConfirmed(run: Run, i: nat, account: Owner, secret: Sealed) returns (k: nat)
    requires run.Valid() && i <= |run.events| && EnabledWith(run.states[i].totp, account, secret)
    requires !EnabledWith(run.states[0].totp, account, secret)
    ensures k < i && Confirms(run, k, account, secret)
    ensures forall m :: k < m <= i ==> EnabledWith(run.states[m].totp, account, secret)
  {
    OnlyConfirmEnables(run, i - 1, account, secret);
    if EnabledWith(run.states[i - 1].totp, account, secret) {
      k := EnabledWasConfirmed(run, i - 1, account, secret);
    } else {
      k := i - 1;
    }
  }

  /** The three together: password, confirmed authenticator, second factor. */
  lemma ChallengeFollowsConfirmation(run: Run, j: nat, account: Owner) returns (k: nat)
    requires run.Valid() && Passes(run, j) && ShowsFactor(run, j, account)
    requires forall secret :: !EnabledWith(run.states[0].totp, account, secret)
    ensures k < j && Confirms(run, k, account, run.states[j].totp[account].secret)
  {
    k := EnabledWasConfirmed(run, j, account, run.states[j].totp[account].secret);
  }

  // ── How an enabled secret ends ─────────────────────────────────────────────

  /** Event `i` starts an enrolment of the account over: a valid bearer token of the account does it. */
  predicate StartsOver(run: Run, i: nat, account: Owner)
    requires run.Shaped()
  {
    i < |run.events| && run.events[i].request.MfaSetup?
    && var r := run.events[i].request;
       SetupCheck(run.states[i], run.cfg, run.events[i].now, r.ctx, r.bearer) == Ok(account)
  }

  /** Event `i` disables it for a signed-in user who shows a code of this very secret. */
  predicate DisabledByCode(run: Run, i: nat, account: Owner, secret: Sealed)
    requires run.Shaped()
  {
    i < |run.events| && run.events[i].request.MfaDisable?
    && var db, now, r := run.states[i], run.events[i].now, run.events[i].request;
       var caller := Authenticate(db, run.cfg, now, r.ctx, r.bearer);
       && caller.Ok? && account == Owner(r.ctx.tenant, Subject(caller.value))
       && Open(secret, r.ctx.key).Some? && TotpMatches(run.cfg, secret.plain, r.code, now)
  }

  predicate DisabledByAdmin(run: Run, i: nat, account: Owner)
    requires run.Shaped()
  {
    i < |run.events| && run.events[i].request.AdminDisableMfa?
    && AdminAccount(run.cfg, run.events[i].now, run.events[i].request.headers, run.events[i].request.user)
       == Ok(account)
  }

  predicate Ends(run: Run, i: nat, account: Owner, secret: Sealed)
    requires run.Shaped()
  {
    StartsOver(run, i, account) || DisabledByCode(run, i, account, secret) || DisabledByAdmin(run, i, account)
  }

  /** An enabled secret stops being the enabled one at an event if and only if the event is a new
      enrolment of its account, a removal with a code of the secret, or an administrator's removal. */
  lemma EnabledUntilEnded(run: Run, i: nat, account: Owner, secret: Sealed)
    requires run.Valid() && i < |run.events| && EnabledWith(run.states[i].totp, account, secret)
    ensures !EnabledWith(run.states[i + 1].totp, account, secret) <==> Ends(run, i, account, secret)
  {
    match run.events[i].request
    case MfaSetup(_, _, _) => MfaSetupAt(run, i);
    case MfaConfirm(_, _, _) => MfaConfirmAt(run, i);
    case MfaDisable(_, _, _) => MfaDisableAt(run, i);
    case AdminDisableMfa(_, _) => AdminDisableMfaAt(run, i);
    case _ => Obeys(run, i);
  }

  /** So a secret that was enabled once and is not now was ended in between, by one of the three. */
  lemma {:induction false} LostWasEnded(run: Run, i: nat, k: nat, account: Owner, secret: Sealed) returns (m: nat)
    requires run.Valid() && i <= k <= |run.events|
    requires EnabledWith(run.states[i].totp, account, secret) && !EnabledWith(run.states[k].totp, account, secret)
    ensures i <= m < k && Ends(run, m, account, secret)
    decreases k - i
  {
    EnabledUntilEnded(run, i, account, secret);
    if EnabledWith(run.states[i + 1].totp, account, secret) {
      m := LostWasEnded(run, i + 1, k, account, secret);
    } else {
      m := i;
    }
  }

  lemma SetupUnprompts(db: Db, cfg: Config, ctx: Ctx, email: string, plain: string, mint: Issuance,
                       bearer: Token, secret: string, now: Time, later: Time, user: Uuid)
    requires JudgeLogin(db, later, ctx, email, plain) == Verified(user) && MfaEnabled(db.totp, Owner(ctx.tenant, user))
    requires SetupCheck(db, cfg, now, ctx, bearer) == Ok(Owner(ctx.tenant, user))
    ensures LoginSpec(db, cfg, later, ctx, email, plain, mint).reply.MfaRequired?
    ensures var after := MfaSetupSpec(db, cfg, now, ctx, bearer, secret).db;
            LoginSpec(after, cfg, later, ctx, email, plain, mint).reply.Tokens?
  {
    var after := MfaSetupSpec(db, cfg, now, ctx, bearer, secret).db;
    assert JudgeLogin(after, later, ctx, email, plain) == JudgeLogin(db, later, ctx, email, plain);
  }

  /** Of the three, the first takes no code: in every database in which a login is answered with an MFA
      prompt, a bearer token of the account starts an enrolment, and the same login is answered with
      tokens. */
  lemma BearerRemovesFactor(db: Db, cfg: Config, ctx: Ctx, email: string, plain: string, mint: Issuance,
                            bearer: Token, secret: string, now: Time, later: Time, user: Uuid) returns (run: Run)
    requires JudgeLogin(db, later, ctx, email, plain) == Verified(user) && MfaEnabled(db.totp, Owner(ctx.tenant, user))
    requires SetupCheck(db, cfg, now, ctx, bearer) == Ok(Owner(ctx.tenant, user))
    ensures run.Valid() && run.cfg == cfg && run.states[0] == db
    ensures run.events == [Event(now, MfaSetup(ctx, bearer, secret)), Event(later, Login(ctx, email, plain, mint))]
    ensures LoginSpec(db, cfg, later, ctx, email, plain, mint).reply.MfaRequired? && run.replies[1].Tokens?
  {
    var setup, login := Event(now, MfaSetup(ctx, bearer, secret)), Event(later, Login(ctx, email, plain, mint));
    run := RunOf(cfg, db, [setup, login]);
    assert run.events[0] == setup && run.events[1] == login;
    MfaSetupAt(run, 0);
    assert run.states[1] == MfaSetupSpec(db, cfg, now, ctx, bearer, secret).db;
    LoginAt(run, 1);
    SetupUnprompts(db, cfg, ctx, email, plain, mint, bearer, secret, now, later, user);
  }
}
