/** Second factors over whole runs: exactly when a secret is stored, enabled or removed, when codes are drawn, and
    when a challenge is passed. */
module Factors {
  import opened Prelude
  import opened Uuids
  import opened AdminAuth
  import opened Crypto
  import opened Jwt
  import opened Schema
  import opened Handlers
  import opened Runs
  import opened Conditions
  import opened Accounts
  import opened Credentials
  import Effects

  // ── Codes and time ─────────────────────────────────────────────────────────

  /** From the epoch's second half-minute on: a code matches if and only if it is that of a step which began at
      most a minute ago or begins within half a minute. */
  lemma CodeMatchesExactly(cfg: Config, secret: string, code: string, now: Time)
    requires now >= 30
    ensures TotpMatches(cfg, secret, code, now)
            <==> exists step: int :: 30 * (step - 1) <= now < 30 * (step + 2) && cfg.totp(secret, step) == Some(code)
  {
    var current := now / 30;
    assert (now - 30) / 30 == current - 1 && (now + 30) / 30 == current + 1;
    if step: int :| 30 * (step - 1) <= now < 30 * (step + 2) && cfg.totp(secret, step) == Some(code) {
      assert step == current - 1 || step == current || step == current + 1;
    }
    if TotpMatches(cfg, secret, code, now) {
      var step :| current - 1 <= step <= current + 1 && cfg.totp(secret, step) == Some(code);
      assert 30 * (step - 1) <= now < 30 * (step + 2);
    }
  }

  // ── The table of secrets ───────────────────────────────────────────────────

  function At(totp: map<Owner, TotpRow>, account: Owner): Option<TotpRow> {
    if account in totp then Some(totp[account]) else None
  }

  /** A signed-in user of the tenant enrols, whose address can be read. */
  predicate Enrols(db: Db, cfg: Config, now: Time, r: Request, account: Owner) {
    r.MfaSetup? && account.tenant == r.ctx.tenant && BearerIn(db, cfg, now, r.bearer, account)
    && Holds(db.users, account) && db.users[account.user].email.key == r.ctx.key
  }

  /** A signed-in user shows a code of the account's secret. */
  predicate Shows(db: Db, cfg: Config, now: Time, ctx: Ctx, bearer: Token, code: string, account: Owner) {
    && account.tenant == ctx.tenant && BearerIn(db, cfg, now, bearer, account)
    && account in db.totp && db.totp[account].secret.key == ctx.key
    && TotpMatches(cfg, db.totp[account].secret.plain, code, now)
  }

  /** The row of an account after a request: a new pending secret if it enrols, the same secret enabled if a code of it
      confirms it, none if it is enabled and removed with a code, or removed by an administrator, and else the same. */
  function RowAfter(db: Db, cfg: Config, now: Time, r: Request, account: Owner): Option<TotpRow> {
    match r
    case MfaSetup(ctx, _, secret) =>
      if Enrols(db, cfg, now, r, account) then Some(TotpRow(Sealed(secret, ctx.key), false))
      else At(db.totp, account)
    case MfaConfirm(ctx, bearer, code) =>
      if Shows(db, cfg, now, ctx, bearer, code, account) then Some(TotpRow(db.totp[account].secret, true))
      else At(db.totp, account)
    case MfaDisable(ctx, bearer, code) =>
      if Shows(db, cfg, now, ctx, bearer, code, account) && db.totp[account].enabled then None
      else At(db.totp, account)
    case AdminDisableMfa(headers, user) =>
      if user == account.user && Administers(cfg, now, headers, account.tenant) then None else At(db.totp, account)
    case _ => At(db.totp, account)
  }

  lemma SetupAnswers(db: Db, cfg: Config, now: Time, r: Request, account: Owner)
    requires r.MfaSetup?
    ensures SetupCheck(db, cfg, now, r.ctx, r.bearer) == Ok(account) <==> Enrols(db, cfg, now, r, account)
  {
    AuthenticatesExactly(db, cfg, now, r.ctx, r.bearer, account.user);
  }

  lemma ConfirmAnswers(db: Db, cfg: Config, now: Time, ctx: Ctx, bearer: Token, code: string, account: Owner)
    ensures ConfirmCheck(db, cfg, now, ctx, bearer, code) == Ok(account)
            <==> Shows(db, cfg, now, ctx, bearer, code, account)
  {
    AuthenticatesExactly(db, cfg, now, ctx, bearer, account.user);
  }

  lemma ReauthenticateAnswers(db: Db, cfg: Config, now: Time, ctx: Ctx, bearer: Token, code: string, account: Owner)
    ensures Reauthenticate(db, cfg, now, ctx, bearer, code) == Ok(account)
            <==> Shows(db, cfg, now, ctx, bearer, code, account) && db.totp[account].enabled
  {
    AuthenticatesExactly(db, cfg, now, ctx, bearer, account.user);
  }

  /** Event `i` makes of the account's row what it should. */
  predicate RowMoves(run: Run, i: nat, account: Owner)
    requires run.Shaped() && i < |run.events|
  {
    At(run.states[i + 1].totp, account)
    == RowAfter(run.states[i], run.cfg, run.events[i].now, run.events[i].request, account)
  }

  lemma SetupMoves(run: Run, i: nat, account: Owner)
    requires run.Valid() && i < |run.events| && run.events[i].request.MfaSetup?
    ensures RowMoves(run, i, account)
  {
    MfaSetupAt(run, i);
    SetupAnswers(run.states[i], run.cfg, run.events[i].now, run.events[i].request, account);
  }

  lemma ConfirmMoves(run: Run, i: nat, account: Owner)
    requires run.Valid() && i < |run.events| && run.events[i].request.MfaConfirm?
    ensures RowMoves(run, i, account)
  {
    var r := run.events[i].request;
    MfaConfirmAt(run, i);
    ConfirmAnswers(run.states[i], run.cfg, run.events[i].now, r.ctx, r.bearer, r.code, account);
  }

  lemma DisableMoves(run: Run, i: nat, account: Owner)
    requires run.Valid() && i < |run.events| && run.events[i].request.MfaDisable?
    ensures RowMoves(run, i, account)
  {
    var r := run.events[i].request;
    MfaDisableAt(run, i);
    ReauthenticateAnswers(run.states[i], run.cfg, run.events[i].now, r.ctx, r.bearer, r.code, account);
  }

  lemma AdminMoves(run: Run, i: nat, account: Owner)
    requires run.Valid() && i < |run.events| && run.events[i].request.AdminDisableMfa?
    ensures RowMoves(run, i, account)
  {
    var r := run.events[i].request;
    AdminDisableMfaAt(run, i);
    AdministersExactly(run.cfg, run.events[i].now, r.headers, r.user, account);
  }

  /** In every step of every run the row of every account moves exactly so. */
  lemma SecretsMoveExactly(run: Run, i: nat, account: Owner)
    requires run.Valid() && i < |run.events|
    ensures RowMoves(run, i, account)
  {
    match run.events[i].request
    case MfaSetup(_, _, _) => SetupMoves(run, i, account);
    case MfaConfirm(_, _, _) => ConfirmMoves(run, i, account);
    case MfaDisable(_, _, _) => DisableMoves(run, i, account);
    case AdminDisableMfa(_, _) => AdminMoves(run, i, account);
    case _ => Obeys(run, i);
  }

  // ── What is answered ───────────────────────────────────────────────────────

  /** Setup answers with the secret it stores, confirmation and removal with success, exactly where they do it. */
  lemma SetupAnswersExactly(run: Run, i: nat)
    requires run.Valid() && i < |run.events| && run.events[i].request.MfaSetup?
    ensures var r, db, now := run.events[i].request, run.states[i], run.events[i].now;
            if exists account :: Enrols(db, run.cfg, now, r, account) then run.replies[i] == TotpPending(r.secret)
            else run.replies[i].Refused?
  {
    var r, db, now := run.events[i].request, run.states[i], run.events[i].now;
    MfaSetupAt(run, i);
    var who := SetupCheck(db, run.cfg, now, r.ctx, r.bearer);
    if who.Ok? {
      SetupAnswers(db, run.cfg, now, r, who.value);
    } else if account :| Enrols(db, run.cfg, now, r, account) {
      SetupAnswers(db, run.cfg, now, r, account);
    }
  }

  lemma ConfirmAnswersExactly(run: Run, i: nat)
    requires run.Valid() && i < |run.events| && run.events[i].request.MfaConfirm?
    ensures var r, db, now := run.events[i].request, run.states[i], run.events[i].now;
            if exists account :: Shows(db, run.cfg, now, r.ctx, r.bearer, r.code, account) then run.replies[i] == Done
            else run.replies[i].Refused?
  {
    var r, db, now := run.events[i].request, run.states[i], run.events[i].now;
    MfaConfirmAt(run, i);
    var who := ConfirmCheck(db, run.cfg, now, r.ctx, r.bearer, r.code);
    if who.Ok? {
      ConfirmAnswers(db, run.cfg, now, r.ctx, r.bearer, r.code, who.value);
    } else if account :| Shows(db, run.cfg, now, r.ctx, r.bearer, r.code, account) {
      ConfirmAnswers(db, run.cfg, now, r.ctx, r.bearer, r.code, account);
    }
  }

  /** The request removes the account's second factor: with a code of the enabled secret, or as an administrator. */
  predicate Removes(db: Db, cfg: Config, now: Time, r: Request, account: Owner) {
    match r
    case MfaDisable(ctx, bearer, code) =>
      Shows(db, cfg, now, ctx, bearer, code, account) && db.totp[account].enabled
    case AdminDisableMfa(headers, user) => user == account.user && Administers(cfg, now, headers, account.tenant)
    case _ => false
  }

  lemma DisableRemoves(db: Db, cfg: Config, now: Time, r: Request, account: Owner)
    requires r.MfaDisable?
    ensures var o := MfaDisableSpec(db, cfg, now, r.ctx, r.bearer, r.code);
            && (Removes(db, cfg, now, r, account) ==> o == WithoutMfa(db, account))
            && ((forall a :: !Removes(db, cfg, now, r, a)) ==> o.reply.Refused? && o.db == db)
  {
    var who := Reauthenticate(db, cfg, now, r.ctx, r.bearer, r.code);
    ReauthenticateAnswers(db, cfg, now, r.ctx, r.bearer, r.code, account);
    if who.Ok? {
      ReauthenticateAnswers(db, cfg, now, r.ctx, r.bearer, r.code, who.value);
      assert Removes(db, cfg, now, r, who.value);
    }
  }

  lemma AdminRemoves(db: Db, cfg: Config, now: Time, r: Request, account: Owner)
    requires r.AdminDisableMfa?
    ensures var o := AdminDisableMfaSpec(db, cfg, now, r.headers, r.user);
            && (Removes(db, cfg, now, r, account) ==> o == WithoutMfa(db, account))
            && ((forall a :: !Removes(db, cfg, now, r, a)) ==> o.reply.Refused? && o.db == db)
  {
    var who := AdminAccount(cfg, now, r.headers, r.user);
    AdministersExactly(cfg, now, r.headers, r.user, account);
    if who.Ok? {
      AdministersExactly(cfg, now, r.headers, r.user, who.value);
      assert Removes(db, cfg, now, r, who.value);
    }
  }

  /** A removal leaves the account neither secret nor codes, and all other accounts theirs; if it may not be, it is
      refused and changes nothing. */
  lemma RemovedExactly(run: Run, i: nat, account: Owner)
    requires run.Valid() && i < |run.events|
    requires run.events[i].request.MfaDisable? || run.events[i].request.AdminDisableMfa?
    ensures var r, db, now := run.events[i].request, run.states[i], run.events[i].now;
            && (Removes(db, run.cfg, now, r, account) ==>
                  run.replies[i] == Done && Effects.MfaRemoved(db, run.states[i + 1], account))
            && ((forall a :: !Removes(db, run.cfg, now, r, a)) ==> run.replies[i].Refused? && run.states[i + 1] == db)
  {
    var r, db, now := run.events[i].request, run.states[i], run.events[i].now;
    if r.MfaDisable? {
      MfaDisableAt(run, i);
      DisableRemoves(db, run.cfg, now, r, account);
    } else {
      AdminDisableMfaAt(run, i);
      AdminRemoves(db, run.cfg, now, r, account);
    }
    Effects.WithoutMfaIs(db, run.states[i + 1], account);
  }

  /** The account's codes are the ten drawn ones, unused, in order after every other account's codes. */
  ghost predicate CodesReplaced(cfg: Config, before: seq<BackupRow>, after: seq<BackupRow>, account: Owner,
                                drawn: seq<string>)
  {
    exists others :: Effects.BackupsOfOthers(before, others, account) && DrawnFor(cfg, others, after, account, drawn)
  }

  predicate DrawnFor(cfg: Config, others: seq<BackupRow>, after: seq<BackupRow>, account: Owner, drawn: seq<string>) {
    && |after| == |others| + |drawn| && after[..|others|] == others
    && forall k :: 0 <= k < |drawn| ==>
         after[|others| + k] == BackupRow(account.tenant, account.user, HashBackup(cfg.upper, drawn[k]), None)
  }

  lemma CodesDrawn(db: Db, cfg: Config, now: Time, r: Request, account: Owner)
    requires r.MfaBackupCodes? && Reauthenticate(db, cfg, now, r.ctx, r.bearer, r.code) == Ok(account)
    ensures var o := MfaBackupCodesSpec(db, cfg, now, r.ctx, r.bearer, r.code, r.drawn);
            o.reply == BackupIssued(r.drawn) && CodesReplaced(cfg, db.backup, o.db.backup, account, r.drawn)
  {
    var others := WithoutBackups(db.backup, account);
    Effects.WithoutBackupsIs(db.backup, others, account);
    assert DrawnFor(cfg, others, others + BackupRows(cfg.upper, r.drawn, account), account, r.drawn);
  }

  /** Whoever shows a code of an enabled secret, and nobody else, gets the ten drawn codes, which replace those of the
      account. */
  lemma CodesDrawnExactly(run: Run, i: nat, account: Owner)
    requires run.Valid() && i < |run.events| && run.events[i].request.MfaBackupCodes?
    ensures var r, db, now := run.events[i].request, run.states[i], run.events[i].now;
            && (Shows(db, run.cfg, now, r.ctx, r.bearer, r.code, account) && db.totp[account].enabled
                ==> run.replies[i] == BackupIssued(r.drawn)
                    && CodesReplaced(run.cfg, db.backup, run.states[i + 1].backup, account, r.drawn))
            && ((forall a :: !(Shows(db, run.cfg, now, r.ctx, r.bearer, r.code, a) && db.totp[a].enabled))
                ==> run.replies[i].Refused? && run.states[i + 1] == db)
  {
    var r, db, now := run.events[i].request, run.states[i], run.events[i].now;
    MfaBackupCodesAt(run, i);
    var who := Reauthenticate(db, run.cfg, now, r.ctx, r.bearer, r.code);
    ReauthenticateAnswers(db, run.cfg, now, r.ctx, r.bearer, r.code, account);
    if who.Ok? {
      ReauthenticateAnswers(db, run.cfg, now, r.ctx, r.bearer, r.code, who.value);
      CodesDrawn(db, run.cfg, now, r, who.value);
    }
  }

  // ── Challenges ─────────────────────────────────────────────────────────────

  /** The MFA token shown is valid and names this account of the tenant, which has a second factor. */
  predicate Prompted(db: Db, cfg: Config, now: Time, r: Request, account: Owner) {
    && r.MfaChallenge? && account.tenant == r.ctx.tenant && HasFactor(db.totp, account)
    && var claims := VerifyMfa(r.mfaToken, cfg.keys, now);
       && claims.Some?
       && Parse(claims.value.sub) == Some(account.user) && Parse(claims.value.tid) == Some(account.tenant)
  }

  /** A code of its secret is shown, or, without one, the text of an unused backup code of the account. */
  ghost predicate FactorShown(db: Db, cfg: Config, now: Time, r: Request, account: Owner)
    requires Prompted(db, cfg, now, r, account)
  {
    || (&& r.totpCode.Some? && db.totp[account].secret.key == r.ctx.key
        && TotpMatches(cfg, db.totp[account].secret.plain, r.totpCode.value, now))
    || (&& r.totpCode.None? && r.backupCode.Some?
        && exists k :: 0 <= k < |db.backup|
                       && IsUnused(db.backup[k], account, HashBackup(cfg.upper, r.backupCode.value)))
  }

  predicate IsUnused(row: BackupRow, account: Owner, code: Digest) {
    row.tenant == account.tenant && row.user == account.user && row.code == code && row.usedAt == None
  }

  lemma FactorExactly(db: Db, cfg: Config, now: Time, r: Request, account: Owner)
    requires Prompted(db, cfg, now, r, account)
    ensures SecondFactor(db, cfg, now, r.ctx, account, r.totpCode, r.backupCode).Proved?
            <==> FactorShown(db, cfg, now, r, account)
  {
    if r.totpCode.None? && r.backupCode.Some? {
      var h := HashBackup(cfg.upper, r.backupCode.value);
      var k := FindBackup(db.backup, account, h);
      if k < |db.backup| {
        assert IsUnused(db.backup[k], account, h);
      } else {
        assert forall m :: 0 <= m < |db.backup| ==> !Redeemable(db.backup[m], account, h);
      }
    }
  }

  lemma ChallengedExactly(db: Db, cfg: Config, now: Time, r: Request, account: Owner)
    requires r.MfaChallenge?
    ensures Challenged(cfg, now, r.ctx, r.mfaToken) == Some(account) && MfaEnabled(db.totp, account)
            <==> Prompted(db, cfg, now, r, account)
  {}

  /** A challenge is answered with tokens if and only if the token prompts for the account, a factor is shown, and the
      account is on file, active, with a readable address. */
  lemma ChallengeServedExactly(run: Run, i: nat, account: Owner)
    requires run.Valid() && i < |run.events| && run.events[i].request.MfaChallenge?
    ensures var r, db, now := run.events[i].request, run.states[i], run.events[i].now;
            && (Prompted(db, run.cfg, now, r, account) ==>
                  if FactorShown(db, run.cfg, now, r, account) && AccountServes(db.users, r.ctx, account.user)
                  then run.replies[i].Tokens? else run.replies[i].Refused?)
            && ((forall a :: !Prompted(db, run.cfg, now, r, a)) ==>
                  run.replies[i].Refused? && run.states[i + 1] == db)
  {
    var r, db, now := run.events[i].request, run.states[i], run.events[i].now;
    MfaChallengeAt(run, i);
    ChallengedExactly(db, run.cfg, now, r, account);
    if Prompted(db, run.cfg, now, r, account) {
      FactorExactly(db, run.cfg, now, r, account);
    } else {
      var named := Challenged(run.cfg, now, r.ctx, r.mfaToken);
      if named.Some? {
        ChallengedExactly(db, run.cfg, now, r, named.value);
      }
    }
  }
}
