/** What an account is known by, over whole runs: the password on file is the last one given, the address was
    verified by its own code, and a login is answered accordingly. */
module Credentials {
  import opened Prelude
  import opened Uuids
  import opened Crypto
  import opened Schema
  import opened Handlers
  import opened Runs
  import opened Conditions
  import opened PasswordHistory
  import opened Accounts

  /** Event `i` is a registration that creates the account. */
  ghost predicate Registers(run: Run, i: nat, account: Owner)
    requires run.Shaped()
  {
    i < |run.events| && MayRegister(run.states[i], run.events[i].request)
    && account == Owner(run.events[i].request.ctx.tenant, run.events[i].request.id)
  }

  /** Event `i` is a reset, or an administrator's update, that gives the account the password `p`. */
  ghost predicate Gives(run: Run, i: nat, account: Owner, p: string)
    requires run.Shaped() && i < |run.events|
  {
    var db, now, r := run.states[i], run.events[i].now, run.events[i].request;
    || (Resets(db, now, r, account) && p == r.password.plain)
    || (r.UpdateUser? && r.newPassword.Some? && p == r.newPassword.value.plain
        && exists key :: Updates(db, run.cfg, now, r, account, key))
  }

  lemma ResetIsChosen(db: Db, cfg: Config, now: Time, r: Request, account: Owner)
    requires r.ResetPassword?
    ensures account.tenant == r.ctx.tenant
            && JudgeReset(db, now, r.ctx, r.token, r.password.plain, r.formatOk) == Accepted(account.user)
            <==> Resets(db, now, r, account)
  {
    if account.tenant == r.ctx.tenant {
      ResetChecks(db, now, r, account);
    }
  }

  lemma UpdateIsChosen(db: Db, cfg: Config, now: Time, r: Request, account: Owner)
    requires r.UpdateUser? && UniqueIds(db.tenants)
    ensures AdminAccount(cfg, now, r.headers, r.user) == Ok(account)
            && UpdateCheck(db, cfg, account, r.newEmail, r.newPassword).Ok?
            <==> exists key :: Updates(db, cfg, now, r, account, key)
  {
    var checked := UpdateCheck(db, cfg, account, r.newEmail, r.newPassword);
    if checked.Ok? {
      UpdateChecks(db, cfg, now, r, account, checked.value);
    }
    if key :| Updates(db, cfg, now, r, account, key) {
      UpdateChecks(db, cfg, now, r, account, key);
    }
  }

  /** The choices that the password history records are these events. */
  lemma ChosenExactly(run: Run, i: nat, account: Owner, p: string)
    requires run.Valid() && i < |run.events| && UniqueIds(run.states[i].tenants)
    ensures ChosenAt(run, i, account) == Some(p) <==> Gives(run, i, account, p)
  {
    var db, now, r := run.states[i], run.events[i].now, run.events[i].request;
    if r.ResetPassword? {
      ResetIsChosen(db, run.cfg, now, r, account);
    } else if r.UpdateUser? {
      UpdateIsChosen(db, run.cfg, now, r, account);
    }
  }

  // ── The accounts table moves ───────────────────────────────────────────────

  /** The row has the new password if it should, and is as it was otherwise. */
  ghost predicate GivenNew(before: User, after: User, given: bool, p: string) {
    && after == before.(password := after.password)
    && if given then OnlyPassword(after.password, p) else after == before
  }

  lemma ResetRow(users: Users, v: ResetVerdict, p: NewPassword, u: Uuid)
    requires u in users && (v.Accepted? ==> v.user in users)
    ensures u in UsersAfterReset(users, v, p)
    ensures GivenNew(users[u], UsersAfterReset(users, v, p)[u], v == Accepted(u), p.plain)
  {}

  lemma ResetVerdictIs(db: Db, now: Time, r: Request, account: Owner)
    requires r.ResetPassword? && Holds(db.users, account)
    ensures JudgeReset(db, now, r.ctx, r.token, r.password.plain, r.formatOk) == Accepted(account.user)
            <==> Resets(db, now, r, account)
  {
    if account.tenant == r.ctx.tenant {
      ResetChecks(db, now, r, account);
    }
  }

  lemma ResetUsers(db: Db, now: Time, r: Request, v: ResetVerdict)
    requires r.ResetPassword? && v == JudgeReset(db, now, r.ctx, r.token, r.password.plain, r.formatOk)
    ensures v.Accepted? ==> v.user in db.users
    ensures ResetPasswordSpec(db, now, r.ctx, r.token, r.password, r.formatOk).db.users
            == UsersAfterReset(db.users, v, r.password)
  {}

  lemma ResetMoves(db: Db, now: Time, r: Request, account: Owner)
    requires r.ResetPassword? && Holds(db.users, account)
    ensures var after := ResetPasswordSpec(db, now, r.ctx, r.token, r.password, r.formatOk).db.users;
            && account.user in after
            && GivenNew(db.users[account.user], after[account.user], Resets(db, now, r, account), r.password.plain)
  {
    var v := JudgeReset(db, now, r.ctx, r.token, r.password.plain, r.formatOk);
    ResetVerdictIs(db, now, r, account);
    ResetUsers(db, now, r, v);
    ResetRow(db.users, v, r.password, account.user);
  }

  lemma UpdateMoves(db: Db, cfg: Config, now: Time, r: Request, account: Owner)
    requires r.UpdateUser? && Holds(db.users, account) && UniqueIds(db.tenants)
    ensures var o := UpdateUserSpec(db, cfg, now, r.headers, r.user, r.newEmail, r.newPassword, r.active);
            var before, after := db.users[account.user], o.db.users[account.user];
            if exists key :: Updates(db, cfg, now, r, account, key)
            then exists key :: Updates(db, cfg, now, r, account, key) && Updated(before, after, r, key)
            else after == before
  {
    if key :| Updates(db, cfg, now, r, account, key) {
      UpdateDoes(db, cfg, now, r, account, key);
    } else if other: Owner, key :| Updates(db, cfg, now, r, other, key) {
      UpdateDoes(db, cfg, now, r, other, key);
    } else {
      UpdateRefuses(db, cfg, now, r);
    }
  }

  /** What event `i` makes of the row of an account: another password exactly if one is given, verified exactly if
      a verification fits or it was before, anything else exactly as an update asks. */
  ghost predicate Moves(run: Run, i: nat, account: Owner)
    requires run.Shaped() && i < |run.events| && Holds(run.states[i].users, account)
  {
    var db, now, r := run.states[i], run.events[i].now, run.events[i].request;
    Holds(run.states[i + 1].users, account)
    && var before, after := db.users[account.user], run.states[i + 1].users[account.user];
       match r
       case ResetPassword(_, _, password, _) =>
         GivenNew(before, after, Resets(db, now, r, account), password.plain)
       case UpdateUser(_, _, _, _, _) =>
         if exists key :: Updates(db, run.cfg, now, r, account, key)
         then exists key :: Updates(db, run.cfg, now, r, account, key) && Updated(before, after, r, key)
         else after == before
       case VerifyEmail(_, _, _) =>
         && after == before.(verified := after.verified)
         && (after.verified <==> before.verified || Verifies(db, now, r, account.user))
       case _ => after == before
  }

  lemma VerifyMoves(db: Db, now: Time, r: Request, account: Owner)
    requires r.VerifyEmail? && Holds(db.users, account) && UniqueLookups(db.users)
    ensures var o := VerifyEmailSpec(db, now, r.ctx, r.email, r.otp);
            var before, after := db.users[account.user], o.db.users[account.user];
            && after == before.(verified := after.verified)
            && (after.verified <==> before.verified || Verifies(db, now, r, account.user))
  {
    if u :| Verifies(db, now, r, u) {
      VerifyDoes(db, now, r, u);
      if Verifies(db, now, r, account.user) {
        FindsTheOne(db.users, r.ctx, r.email, Owner(r.ctx.tenant, account.user));
        FindsTheOne(db.users, r.ctx, r.email, Owner(r.ctx.tenant, u));
      }
    } else {
      VerifyRefuses(db, now, r);
    }
  }

  lemma VerificationMoves(run: Run, i: nat, account: Owner)
    requires run.Valid() && i < |run.events| && Holds(run.states[i].users, account)
    requires run.events[i].request.VerifyEmail? && UniqueLookups(run.states[i].users)
    ensures Moves(run, i, account)
  {
    VerifyEmailAt(run, i);
    VerifyMoves(run.states[i], run.events[i].now, run.events[i].request, account);
  }

  lemma ResettingMoves(run: Run, i: nat, account: Owner)
    requires run.Valid() && i < |run.events| && Holds(run.states[i].users, account)
    requires run.events[i].request.ResetPassword?
    ensures Moves(run, i, account)
  {
    ResetPasswordAt(run, i);
    ResetMoves(run.states[i], run.events[i].now, run.events[i].request, account);
  }

  lemma UpdatingMoves(run: Run, i: nat, account: Owner)
    requires run.Valid() && i < |run.events| && Holds(run.states[i].users, account)
    requires run.events[i].request.UpdateUser? && UniqueIds(run.states[i].tenants)
    ensures Moves(run, i, account)
  {
    UpdateUserAt(run, i);
    UpdateMoves(run.states[i], run.cfg, run.events[i].now, run.events[i].request, account);
  }

  lemma AccountsMove(run: Run, i: nat, account: Owner)
    requires run.Valid() && i < |run.events| && Holds(run.states[i].users, account)
    requires UniqueIds(run.states[i].tenants) && UniqueLookups(run.states[i].users)
    ensures Moves(run, i, account)
  {
    match run.events[i].request
    case Register(_, _, _, _, _, _) => RegistersExactly(run, i);
    case VerifyEmail(_, _, _) => VerificationMoves(run, i, account);
    case ResetPassword(_, _, _, _) => ResettingMoves(run, i, account);
    case UpdateUser(_, _, _, _, _) => UpdatingMoves(run, i, account);
    case _ => Obeys(run, i);
  }

  lemma UpdateAddsNobody(run: Run, i: nat)
    requires run.Valid() && i < |run.events| && run.events[i].request.UpdateUser?
    ensures run.states[i + 1].users.Keys == run.states[i].users.Keys
  {
    UpdateUserAt(run, i);
  }

  lemma ResetAddsNobody(run: Run, i: nat)
    requires run.Valid() && i < |run.events| && run.events[i].request.ResetPassword?
    ensures run.states[i + 1].users.Keys == run.states[i].users.Keys
  {
    ResetPasswordAt(run, i);
  }

  lemma NobodyComes(run: Run, i: nat)
    requires run.Valid() && i < |run.events| && !run.events[i].request.Register?
    ensures run.states[i + 1].users.Keys == run.states[i].users.Keys
  {
    match run.events[i].request
    case VerifyEmail(_, _, _) => VerifyEmailAt(run, i);
    case ResetPassword(_, _, _, _) => ResetAddsNobody(run, i);
    case UpdateUser(_, _, _, _, _) => UpdateAddsNobody(run, i);
    case _ => Obeys(run, i);
  }

  /** An account appears exactly when a registration creates it. */
  lemma AccountsCome(run: Run, i: nat, account: Owner)
    requires run.Valid() && i < |run.events| && !Holds(run.states[i].users, account)
    ensures Holds(run.states[i + 1].users, account) <==> Registers(run, i, account)
  {
    if run.events[i].request.Register? {
      RegistersExactly(run, i);
    } else {
      NobodyComes(run, i);
      Obeys(run, i);
    }
  }

  // ── The uniqueness constraints hold throughout ─────────────────────────────

  ghost predicate Constrained(db: Db) { UniqueIds(db.tenants) && UniqueLookups(db.users) }

  lemma NewAddressIsUnique(run: Run, i: nat)
    requires run.Valid() && i < |run.events| && Constrained(run.states[i]) && run.events[i].request.Register?
    ensures UniqueLookups(run.states[i + 1].users)
  {
    RegistersExactly(run, i);
    var r, before, after := run.events[i].request, run.states[i].users, run.states[i + 1].users;
    forall j, k, t, l | HasLookup(after, j, t, l) && HasLookup(after, k, t, l) ensures j == k {
      assert j in before && k in before ==> HasLookup(before, j, t, l) && HasLookup(before, k, t, l);
    }
  }

  lemma UpdatedAddressIsUnique(run: Run, i: nat)
    requires run.Valid() && i < |run.events| && Constrained(run.states[i]) && run.events[i].request.UpdateUser?
    ensures UniqueLookups(run.states[i + 1].users)
  {
    var r, before, after := run.events[i].request, run.states[i].users, run.states[i + 1].users;
    if account, key :| Updates(run.states[i], run.cfg, run.events[i].now, r, account, key) {
      UpdatedExactly(run, i, account, key);
      forall j, k, t, l | HasLookup(after, j, t, l) && HasLookup(after, k, t, l) ensures j == k {
        assert j != account.user ==> HasLookup(before, j, t, l);
        assert k != account.user ==> HasLookup(before, k, t, l);
        assert r.newEmail.None? ==> HasLookup(before, j, t, l) && HasLookup(before, k, t, l);
      }
    } else {
      UpdatedExactly(run, i, Owner(0, 0), "");
    }
  }

  lemma OthersKeepAddresses(run: Run, i: nat)
    requires run.Valid() && i < |run.events| && Constrained(run.states[i])
    requires !run.events[i].request.Register? && !run.events[i].request.UpdateUser?
    ensures UniqueLookups(run.states[i + 1].users)
  {
    var before, after := run.states[i].users, run.states[i + 1].users;
    forall j, t, l | HasLookup(after, j, t, l) ensures HasLookup(before, j, t, l) {
      if !Holds(before, Owner(t, j)) {
        AccountsCome(run, i, Owner(t, j));
      } else {
        AccountsMove(run, i, Owner(t, j));
      }
    }
  }

  /** Tenants stand, and no two accounts of a tenant ever have the same address. */
  lemma {:induction false} StaysConstrained(run: Run, i: nat)
    requires run.Valid() && i <= |run.events| && Constrained(run.states[0])
    ensures Constrained(run.states[i]) && run.states[i].tenants == run.states[0].tenants
  {
    if i > 0 {
      StaysConstrained(run, i - 1);
      Obeys(run, i - 1);
      if run.events[i - 1].request.Register? {
        NewAddressIsUnique(run, i - 1);
      } else if run.events[i - 1].request.UpdateUser? {
        UpdatedAddressIsUnique(run, i - 1);
      } else {
        OthersKeepAddresses(run, i - 1);
      }
    }
  }

  // ── Passwords ──────────────────────────────────────────────────────────────

  /** The password last given to the account by event `i`: chosen, registered, or there at the start. */
  ghost function LastGiven(run: Run, i: nat, account: Owner): Option<string>
    requires run.Shaped() && i <= |run.events|
  {
    if i == 0 then
      if Holds(run.states[0].users, account) then Some(run.states[0].users[account.user].password.password) else None
    else if ChosenAt(run, i - 1, account).Some? then ChosenAt(run, i - 1, account)
    else if Registers(run, i - 1, account) then Some(run.events[i - 1].request.password.plain)
    else LastGiven(run, i - 1, account)
  }

  /** Right after a choice exactly the chosen password is right, and in every other step it is the one from before. */
  lemma ChoiceIsPassword(run: Run, i: nat, account: Owner)
    requires run.Valid() && i < |run.events| && Holds(run.states[i].users, account) && Constrained(run.states[i])
    ensures Holds(run.states[i + 1].users, account)
    ensures var before, after := run.states[i].users[account.user], run.states[i + 1].users[account.user];
            match ChosenAt(run, i, account)
            case Some(p) => OnlyPassword(after.password, p)
            case None => after.password == before.password
  {
    var r := run.events[i].request;
    AccountsMove(run, i, account);
    if r.ResetPassword? {
      ChosenExactly(run, i, account, r.password.plain);
    } else if r.UpdateUser? && r.newPassword.Some? {
      ChosenExactly(run, i, account, r.newPassword.value.plain);
    }
  }

  /** A reset that succeeds for an account gives it exactly the new password. */
  lemma ResetGives(run: Run, i: nat, account: Owner)
    requires run.Valid() && i < |run.events| && Constrained(run.states[i])
    requires Resets(run.states[i], run.events[i].now, run.events[i].request, account)
    ensures run.replies[i] == Done && Holds(run.states[i + 1].users, account)
    ensures OnlyPassword(run.states[i + 1].users[account.user].password, run.events[i].request.password.plain)
  {
    ResetServedExactly(run, i);
    AccountsMove(run, i, account);
  }

  lemma UnknownChoosesNothing(run: Run, i: nat, account: Owner)
    requires run.Valid() && i < |run.events| && !Holds(run.states[i].users, account)
    ensures ChosenAt(run, i, account) == None
  {}

  /** The password on file is the last one given: that one verifies, and no other. */
  lemma {:induction false} PasswordIsLastGiven(run: Run, i: nat, account: Owner)
    requires run.Valid() && i <= |run.events| && Constrained(run.states[0]) && Holds(run.states[i].users, account)
    ensures LastGiven(run, i, account).Some?
    ensures forall q :: VerifyPassword(q, run.states[i].users[account.user].password)
                        <==> LastGiven(run, i, account) == Some(q)
  {
    if i > 0 {
      PasswordStep(run, i - 1, i, account);
      if Holds(run.states[i - 1].users, account) {
        PasswordIsLastGiven(run, i - 1, account);
      }
    }
  }

  predicate Keeps(run: Run, i: nat, account: Owner)
    requires run.Shaped() && i < |run.events|
  {
    Holds(run.states[i].users, account) && ChosenAt(run, i, account).None?
  }

  lemma PasswordStep(run: Run, i: nat, next: nat, account: Owner)
    requires run.Valid() && i < |run.events| && next == i + 1
    requires Constrained(run.states[0]) && Holds(run.states[next].users, account)
    ensures Keeps(run, i, account)
            ==> run.states[next].users[account.user].password == run.states[i].users[account.user].password
                && LastGiven(run, next, account) == LastGiven(run, i, account)
    ensures !Keeps(run, i, account)
            ==> LastGiven(run, next, account).Some?
                && forall q :: VerifyPassword(q, run.states[next].users[account.user].password)
                               <==> LastGiven(run, next, account) == Some(q)
  {
    StaysConstrained(run, i);
    if Holds(run.states[i].users, account) {
      ChoiceIsPassword(run, i, account);
    } else {
      AccountsCome(run, i, account);
      UnknownChoosesNothing(run, i, account);
      RegistersExactly(run, i);
    }
  }

  // ── Verified addresses ─────────────────────────────────────────────────────

  /** An account is verified only because a code of its own was shown for it, or was from the start. */
  lemma {:induction false} VerifiedWasProved(run: Run, i: nat, account: Owner) returns (k: nat)
    requires run.Valid() && i <= |run.events| && Constrained(run.states[0])
    requires Holds(run.states[i].users, account) && run.states[i].users[account.user].verified
    requires !(Holds(run.states[0].users, account) && run.states[0].users[account.user].verified)
    ensures k < i && Verifies(run.states[k], run.events[k].now, run.events[k].request, account.user)
    ensures run.replies[k] == Done && run.events[k].request.ctx.tenant == account.tenant
  {
    StaysConstrained(run, i - 1);
    if !Holds(run.states[i - 1].users, account) {
      AccountsCome(run, i - 1, account);
      RegistersExactly(run, i - 1);
    } else {
      AccountsMove(run, i - 1, account);
      if run.states[i - 1].users[account.user].verified {
        k := VerifiedWasProved(run, i - 1, account);
      } else {
        k := i - 1;
        VerifiedExactly(run, k, account.user);
      }
    }
  }

  // ── Logins ─────────────────────────────────────────────────────────────────

  /** Up to the password: the account may log in, and its address can be read. */
  predicate MayEnter(db: Db, ctx: Ctx, account: Owner)
    requires Holds(db.users, account)
  {
    db.users[account.user].active && (MustVerify(db.settings, ctx.tenant) ==> db.users[account.user].verified)
    && db.users[account.user].email.key == ctx.key
  }

  predicate HasFactor(totp: map<Owner, TotpRow>, account: Owner) {
    account in totp && totp[account].enabled
  }

  /** One failed attempt more for the tenant and the address. */
  function FailureRecorded(db: Db, now: Time, ctx: Ctx, email: string): Db {
    db.(attempts := db.attempts + [Attempt(ctx.tenant, Lookup(email, ctx.key), now)])
  }

  lemma LoginDoes(db: Db, cfg: Config, now: Time, ctx: Ctx, email: string, plain: string, mint: Issuance,
                  account: Owner)
    requires UniqueLookups(db.users) && Addressed(db.users, account, ctx, email)
    requires !Locked(db.settings, db.attempts, ctx.tenant, Lookup(email, ctx.key), now)
    ensures var o, user := LoginSpec(db, cfg, now, ctx, email, plain, mint), db.users[account.user];
            if !user.active then o == Refuse(db, Unauthorized)
            else if MustVerify(db.settings, ctx.tenant) && !user.verified then o == Refuse(db, InvalidInput)
            else if !VerifyPassword(plain, user.password)
            then o == Refuse(FailureRecorded(db, now, ctx, email), Unauthorized)
            else if user.email.key != ctx.key then o == Refuse(db, CryptoError)
            else o.db.attempts == Cleared(db.attempts, ctx.tenant, Lookup(email, ctx.key))
                 && if HasFactor(db.totp, account) then o.reply == MfaRequired(MfaFor(cfg, account, now))
                    else o.reply.Tokens?
  {
    FindsTheOne(db.users, ctx, email, account);
  }

  lemma NobodyLogsIn(db: Db, cfg: Config, now: Time, ctx: Ctx, email: string, plain: string, mint: Issuance)
    requires Unaddressed(db.users, ctx, email)
             || Locked(db.settings, db.attempts, ctx.tenant, Lookup(email, ctx.key), now)
    ensures LoginSpec(db, cfg, now, ctx, email, plain, mint)
            == Refuse(if Locked(db.settings, db.attempts, ctx.tenant, Lookup(email, ctx.key), now) then db
                      else FailureRecorded(db, now, ctx, email), Unauthorized)
  {
    FindsAddressed(db.users, ctx, email);
  }

  /** A login to an account's address, unless it is locked out, is let through if and only if the account may enter
      and the password verifies, to an MFA prompt if the account has a second factor and to tokens if not. A wrong
      password of an account that may log in, and a login to no account's address, are recorded as failures. */
  lemma LoginServedExactly(run: Run, i: nat, account: Owner)
    requires run.Valid() && i < |run.events| && run.events[i].request.Login? && UniqueLookups(run.states[i].users)
    requires var r, db := run.events[i].request, run.states[i];
             !Locked(db.settings, db.attempts, r.ctx.tenant, Lookup(r.email, r.ctx.key), run.events[i].now)
    ensures var r, db := run.events[i].request, run.states[i];
            && (Addressed(db.users, account, r.ctx, r.email) ==>
                  var right := VerifyPassword(r.plain, db.users[account.user].password);
                  if MayEnter(db, r.ctx, account) && right
                  then if HasFactor(db.totp, account)
                       then run.replies[i] == MfaRequired(MfaFor(run.cfg, account, run.events[i].now))
                       else run.replies[i].Tokens?
                  else run.replies[i].Refused?
                       && (run.states[i + 1] == db
                           || (!right && run.states[i + 1] == FailureRecorded(db, run.events[i].now, r.ctx, r.email))))
            && (Unaddressed(db.users, r.ctx, r.email) ==>
                  run.replies[i] == Refused(Unauthorized)
                  && run.states[i + 1] == FailureRecorded(db, run.events[i].now, r.ctx, r.email))
  {
    var r, db := run.events[i].request, run.states[i];
    LoginAt(run, i);
    if Addressed(db.users, account, r.ctx, r.email) {
      LoginDoes(db, run.cfg, run.events[i].now, r.ctx, r.email, r.plain, r.mint, account);
    } else if Unaddressed(db.users, r.ctx, r.email) {
      NobodyLogsIn(db, run.cfg, run.events[i].now, r.ctx, r.email, r.plain, r.mint);
    }
  }

  /** So whoever may enter gets in exactly with the password last given, by registration, reset or update. */
  lemma LastGivenLogsIn(run: Run, i: nat, account: Owner)
    requires run.Valid() && i < |run.events| && run.events[i].request.Login? && Constrained(run.states[0])
    requires var r, db := run.events[i].request, run.states[i];
             && !Locked(db.settings, db.attempts, r.ctx.tenant, Lookup(r.email, r.ctx.key), run.events[i].now)
             && Addressed(db.users, account, r.ctx, r.email) && MayEnter(db, r.ctx, account)
    ensures LastGiven(run, i, account) == Some(run.events[i].request.plain)
            <==> run.replies[i].Tokens? || run.replies[i].MfaRequired?
  {
    StaysConstrained(run, i);
    LoginServedExactly(run, i, account);
    PasswordIsLastGiven(run, i, account);
  }

  /** Where addresses must be verified, whoever gets past a login showed a code of the account before, or was verified
      from the start. */
  lemma VerifiedEnter(run: Run, i: nat, account: Owner) returns (k: nat)
    requires run.Valid() && i < |run.events| && run.events[i].request.Login? && Constrained(run.states[0])
    requires MustVerify(run.states[i].settings, run.events[i].request.ctx.tenant)
    requires Addressed(run.states[i].users, account, run.events[i].request.ctx, run.events[i].request.email)
    requires !run.replies[i].Refused?
    requires !(Holds(run.states[0].users, account) && run.states[0].users[account.user].verified)
    ensures k < i && Verifies(run.states[k], run.events[k].now, run.events[k].request, account.user)
  {
    var r, db := run.events[i].request, run.states[i];
    StaysConstrained(run, i);
    LoginAt(run, i);
    assert !Locked(db.settings, db.attempts, r.ctx.tenant, Lookup(r.email, r.ctx.key), run.events[i].now);
    LoginServedExactly(run, i, account);
    k := VerifiedWasProved(run, i, account);
  }
}
