/** One-time tokens over whole runs: where they come from, and what they are good for. */
module OneTimeTokens {
  import opened Prelude
  import opened Uuids
  import opened Crypto
  import opened Schema
  import opened Handlers
  import opened Runs
  import opened PasswordHistory
  import opened Accounts
  import opened Credentials
  import SingleUse

  // ── What is stored ─────────────────────────────────────────────────────────

  /** The request asks for a reset of this account, which is active, with a token that is new. */
  predicate AsksReset(db: Db, r: Request, account: Owner) {
    r.ForgotPassword? && Addressed(db.users, account, r.ctx, r.email) && db.users[account.user].active
    && Sha256(r.drawnToken) !in db.oneTime
  }

  lemma ForgotStores(db: Db, now: Time, r: Request, account: Owner)
    requires UniqueLookups(db.users) && AsksReset(db, r, account)
    ensures ForgotPasswordSpec(db, now, r.ctx, r.email, r.drawnToken)
            == Outcome(db.(oneTime := db.oneTime[Sha256(r.drawnToken) :=
                         OneTime(account.tenant, account.user, PasswordReset, now + 3600, None)]), Done)
  {
    FindsTheOne(db.users, r.ctx, r.email, account);
  }

  lemma ForgotStoresNothing(db: Db, now: Time, r: Request)
    requires r.ForgotPassword? && forall account :: !AsksReset(db, r, account)
    ensures var o := ForgotPasswordSpec(db, now, r.ctx, r.email, r.drawnToken);
            o.db == db && (o.reply == Done || (o.reply == Refused(Internal) && Sha256(r.drawnToken) in db.oneTime))
  {
    FindsAddressed(db.users, r.ctx, r.email);
    var found := FindByLookup(db.users, r.ctx.tenant, Lookup(r.email, r.ctx.key));
    if found.Some? {
      assert !AsksReset(db, r, Owner(r.ctx.tenant, found.value));
    }
  }

  /** A forgotten password stores the drawn token for an hour, for the active account with the address, and nothing
      for anybody else, who gets the same answer. */
  lemma ForgotServedExactly(run: Run, i: nat, account: Owner)
    requires run.Valid() && i < |run.events| && run.events[i].request.ForgotPassword?
    requires UniqueLookups(run.states[i].users)
    ensures var r, db, now := run.events[i].request, run.states[i], run.events[i].now;
            && (AsksReset(db, r, account) ==>
                  run.replies[i] == Done
                  && run.states[i + 1].oneTime
                     == db.oneTime[Sha256(r.drawnToken) :=
                          OneTime(account.tenant, account.user, PasswordReset, now + 3600, None)])
            && ((forall other :: !AsksReset(db, r, other)) ==>
                  run.states[i + 1] == db && (Sha256(r.drawnToken) !in db.oneTime ==> run.replies[i] == Done))
  {
    var r, db, now := run.events[i].request, run.states[i], run.events[i].now;
    ForgotPasswordAt(run, i);
    if AsksReset(db, r, account) {
      ForgotStores(db, now, r, account);
    } else if forall other :: !AsksReset(db, r, other) {
      ForgotStoresNothing(db, now, r);
    }
  }

  // ── Where a row comes from ─────────────────────────────────────────────────

  /** Event `j` asked for the reset that the row is for. */
  predicate ResetAsked(run: Run, j: nat, h: Digest, row: OneTime)
    requires run.Shaped()
  {
    j < |run.events|
    && var r := run.events[j].request;
       && AsksReset(run.states[j], r, Owner(row.tenant, row.user)) && h == Sha256(r.drawnToken)
       && row.kind == PasswordReset && row.expiresAt == run.events[j].now + 3600
  }

  /** Event `j` registered the account whose address the row verifies. */
  ghost predicate CodeSent(run: Run, j: nat, h: Digest, row: OneTime)
    requires run.Shaped()
  {
    Registers(run, j, Owner(row.tenant, row.user))
    && var r := run.events[j].request;
       && h == Sha256(Text(r.id) + ":" + r.otp) && MustVerify(run.states[j].settings, row.tenant)
       && row.kind == EmailVerification && row.expiresAt == run.events[j].now + 86400
  }

  lemma RowAppears(run: Run, i: nat, h: Digest)
    requires run.Valid() && i < |run.events| && UniqueLookups(run.states[i].users)
    requires h in run.states[i + 1].oneTime && h !in run.states[i].oneTime
    ensures var row := run.states[i + 1].oneTime[h]; ResetAsked(run, i, h, row) || CodeSent(run, i, h, row)
  {
    match run.events[i].request
    case Register(_, _, _, _, _, _) => RegistersExactly(run, i);
    case ForgotPassword(_, _, _) => TokenAppears(run, i, h);
    case VerifyEmail(_, _, _) => VerifyEmailAt(run, i);
    case ResetPassword(_, _, _, _) => ResetServedExactly(run, i);
    case _ => Obeys(run, i);
  }

  lemma TokenAppears(run: Run, i: nat, h: Digest)
    requires run.Valid() && i < |run.events| && UniqueLookups(run.states[i].users)
    requires run.events[i].request.ForgotPassword?
    requires h in run.states[i + 1].oneTime && h !in run.states[i].oneTime
    ensures ResetAsked(run, i, h, run.states[i + 1].oneTime[h])
  {
    var r, db := run.events[i].request, run.states[i];
    if account :| AsksReset(db, r, account) {
      ForgotServedExactly(run, i, account);
    } else {
      ForgotServedExactly(run, i, Owner(0, 0));
    }
  }

  /** Every one-time token on file was stored by a request for a reset of its account, for an hour, or by the
      registration of its account, for a day. */
  lemma {:induction false} OneTimeHasOrigin(run: Run, i: nat, h: Digest) returns (j: nat)
    requires run.Valid() && i <= |run.events| && Constrained(run.states[0])
    requires h in run.states[i].oneTime && h !in run.states[0].oneTime
    ensures var row := run.states[i].oneTime[h]; j < i && (ResetAsked(run, j, h, row) || CodeSent(run, j, h, row))
  {
    if h in run.states[i - 1].oneTime {
      j := OneTimeHasOrigin(run, i - 1, h);
      SingleUse.OneTimeRowsStay(run, i - 1);
    } else {
      j := i - 1;
      StaysConstrained(run, j);
      RowAppears(run, j, h);
    }
  }

  lemma SameCode(u: Uuid, otp: string, w: Uuid, other: string)
    requires Text(u) + ":" + otp == Text(w) + ":" + other
    ensures u == w && otp == other
  {
    var a, b := Text(u) + ":" + otp, Text(w) + ":" + other;
    assert a[..36] == Text(u) && b[..36] == Text(w);
    assert a[37..] == otp && b[37..] == other;
    TextInjective(u, w);
  }

  /** A verified address had its code sent at the registration of the very account, within the last 24 hours. */
  lemma VerificationFollowsRegistration(run: Run, i: nat, account: Owner) returns (j: nat)
    requires run.Valid() && i < |run.events| && Constrained(run.states[0])
    requires Verifies(run.states[i], run.events[i].now, run.events[i].request, account.user)
    requires account.tenant == run.events[i].request.ctx.tenant
    requires Sha256(Text(account.user) + ":" + run.events[i].request.otp) !in run.states[0].oneTime
    ensures j < i && run.events[j].request.Register? && run.events[j].request.id == account.user
    ensures run.events[j].request.otp == run.events[i].request.otp && run.events[i].now <= run.events[j].now + 86400
  {
    var h := Sha256(Text(account.user) + ":" + run.events[i].request.otp);
    j := OneTimeHasOrigin(run, i, h);
    SameCode(run.events[j].request.id, run.events[j].request.otp, account.user, run.events[i].request.otp);
  }

  // ── What a drawn token is good for ─────────────────────────────────────────

  lemma {:induction false} RowStays(run: Run, i: nat, k: nat, h: Digest)
    requires run.Valid() && i <= k <= |run.events| && h in run.states[i].oneTime
    ensures h in run.states[k].oneTime
    ensures run.states[k].oneTime[h] == run.states[i].oneTime[h].(usedAt := run.states[k].oneTime[h].usedAt)
  {
    if i < k {
      RowStays(run, i, k - 1, h);
      SingleUse.OneTimeRowsStay(run, k - 1);
    }
  }

  lemma {:induction false} AccountStays(run: Run, i: nat, k: nat, account: Owner)
    requires run.Valid() && i <= k <= |run.events| && Holds(run.states[i].users, account)
    ensures Holds(run.states[k].users, account)
  {
    if i < k {
      AccountStays(run, i, k - 1, account);
      Obeys(run, k - 1);
    }
  }

  lemma DrawnTokenWaits(run: Run, j: nat, i: nat, account: Owner)
    requires run.Valid() && j < i < |run.events| && Constrained(run.states[j])
    requires AsksReset(run.states[j], run.events[j].request, account)
    ensures var h := Sha256(run.events[j].request.drawnToken);
            && h in run.states[i].oneTime && Holds(run.states[i].users, account)
            && run.states[i].oneTime[h]
               == OneTime(account.tenant, account.user, PasswordReset, run.events[j].now + 3600,
                          run.states[i].oneTime[h].usedAt)
  {
    ForgotServedExactly(run, j, account);
    RowStays(run, j + 1, i, Sha256(run.events[j].request.drawnToken));
    AccountStays(run, j, i, account);
  }

  lemma WaitingTokenResets(run: Run, i: nat, account: Owner, expiresAt: Time)
    requires run.Valid() && i < |run.events| && Constrained(run.states[i]) && Holds(run.states[i].users, account)
    requires run.events[i].request.ResetPassword? && run.events[i].request.ctx.tenant == account.tenant
    requires var h := Sha256(run.events[i].request.token);
             h in run.states[i].oneTime
             && run.states[i].oneTime[h] == OneTime(account.tenant, account.user, PasswordReset, expiresAt, None)
    ensures var r := run.events[i].request;
            if run.events[i].now <= expiresAt && r.formatOk && r.password.plain !in Recent(run.states[i], account)
            then run.replies[i] == Done && Holds(run.states[i + 1].users, account)
                 && OnlyPassword(run.states[i + 1].users[account.user].password, r.password.plain)
            else run.replies[i].Refused?
  {
    ResetServedExactly(run, i);
    if Resets(run.states[i], run.events[i].now, run.events[i].request, account) {
      ResetGives(run, i, account);
    }
  }

  /** The token drawn for an account's forgotten password, while it is unused, resets the account's password
      exactly for an hour, to any that will do and is none of the last ones; afterwards that one verifies, and no
      other. */
  lemma DrawnTokenResets(run: Run, j: nat, i: nat, account: Owner)
    requires run.Valid() && j < i < |run.events| && Constrained(run.states[0])
    requires AsksReset(run.states[j], run.events[j].request, account)
    requires run.events[i].request.ResetPassword? && run.events[i].request.ctx.tenant == account.tenant
    requires run.events[i].request.token == run.events[j].request.drawnToken
    requires var h := Sha256(run.events[i].request.token);
             h in run.states[i].oneTime ==> run.states[i].oneTime[h].usedAt == None
    ensures var r, now := run.events[i].request, run.events[i].now;
            if now <= run.events[j].now + 3600 && r.formatOk && r.password.plain !in Recent(run.states[i], account)
            then run.replies[i] == Done && Holds(run.states[i + 1].users, account)
                 && OnlyPassword(run.states[i + 1].users[account.user].password, r.password.plain)
            else run.replies[i].Refused?
  {
    StaysConstrained(run, j);
    StaysConstrained(run, i);
    DrawnTokenWaits(run, j, i, account);
    WaitingTokenResets(run, i, account, run.events[j].now + 3600);
  }
}
