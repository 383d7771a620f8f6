/** The accounts table over whole runs: exactly when accounts come, are verified, get another password, address or
    standing, and what one-time tokens have to do with it. */
module Accounts {
  import opened Prelude
  import opened Uuids
  import opened AdminAuth
  import opened Crypto
  import opened Schema
  import opened Handlers
  import opened Runs
  import opened Conditions
  import opened PasswordHistory

  predicate Holds(users: Users, account: Owner) {
    account.user in users && users[account.user].tenant == account.tenant
  }

  /** The account is the tenant's one with this address, hashed under this key. */
  predicate Addressed(users: Users, account: Owner, ctx: Ctx, email: string) {
    Holds(users, account) && account.tenant == ctx.tenant && users[account.user].lookup == Lookup(email, ctx.key)
  }

  ghost predicate Unaddressed(users: Users, ctx: Ctx, email: string) {
    forall u :: u in users ==> !(users[u].tenant == ctx.tenant && users[u].lookup == Lookup(email, ctx.key))
  }

  lemma FindsAddressed(users: Users, ctx: Ctx, email: string)
    ensures match FindByLookup(users, ctx.tenant, Lookup(email, ctx.key))
            case None => Unaddressed(users, ctx, email)
            case Some(u) => Addressed(users, Owner(ctx.tenant, u), ctx, email)
  {
    var l := Lookup(email, ctx.key);
    if FindByLookup(users, ctx.tenant, l).None? {
      forall u | u in users ensures !(users[u].tenant == ctx.tenant && users[u].lookup == l) {
        assert !HasLookup(users, u, ctx.tenant, l);
      }
    }
  }

  lemma FindsTheOne(users: Users, ctx: Ctx, email: string, account: Owner)
    requires UniqueLookups(users) && Addressed(users, account, ctx, email)
    ensures FindByLookup(users, ctx.tenant, Lookup(email, ctx.key)) == Some(account.user)
  {
    assert HasLookup(users, account.user, ctx.tenant, Lookup(email, ctx.key));
  }

  /** This password verifies, and no other. */
  ghost predicate OnlyPassword(hash: PasswordHash, p: string) {
    forall q :: VerifyPassword(q, hash) <==> q == p
  }

  // ── Registration ───────────────────────────────────────────────────────────

  /** Registration is open, which it is by default, the password will do, and address and id are new. */
  ghost predicate MayRegister(db: Db, r: Request) {
    r.Register? && (r.ctx.tenant in db.settings ==> db.settings[r.ctx.tenant].registration)
    && r.formatOk && r.id !in db.users && Unaddressed(db.users, r.ctx, r.email)
  }

  /** Why a registration is refused: it is closed, the password will not do, the address is taken, or else the id is. */
  ghost function RegisterError(db: Db, r: Request): AppError
    requires r.Register?
  {
    if r.ctx.tenant in db.settings && !db.settings[r.ctx.tenant].registration then Forbidden
    else if !r.formatOk then InvalidInput
    else if !Unaddressed(db.users, r.ctx, r.email) then Conflict
    else Internal
  }

  lemma RegisterChecks(db: Db, r: Request)
    requires r.Register?
    ensures RegisterCheck(db, r.ctx, r.email, r.formatOk, r.id)
            == if MayRegister(db, r) then None else Some(RegisterError(db, r))
  {
    FindsAddressed(db.users, r.ctx, r.email);
  }

  predicate MustVerify(settings: map<Uuid, Settings>, t: Uuid) {
    t in settings && settings[t].requireVerified
  }

  /** The verification code of the registration is stored, for 24 hours, and nothing else. */
  predicate CodeStored(before: map<Digest, OneTime>, after: map<Digest, OneTime>, r: Request, now: Time)
    requires r.Register?
  {
    after == before[Sha256(Text(r.id) + ":" + r.otp) :=
                      OneTime(r.ctx.tenant, r.id, EmailVerification, now + 86400, None)]
  }

  /** The new account: active, unverified, under the address, with the password. */
  ghost predicate IsNew(user: User, r: Request)
    requires r.Register?
  {
    && user.tenant == r.ctx.tenant && user.lookup == Lookup(r.email, r.ctx.key)
    && user.email.plain == r.email && user.email.key == r.ctx.key && user.active && !user.verified
    && OnlyPassword(user.password, r.password.plain)
  }

  lemma RegisterDoes(db: Db, now: Time, r: Request)
    requires r.Register?
    ensures var o := RegisterSpec(db, now, r.ctx, r.email, r.password, r.formatOk, r.id, r.otp);
            if !MayRegister(db, r) then o == Refuse(db, RegisterError(db, r))
            else && o.db.users.Keys == db.users.Keys + {r.id} && IsNew(o.db.users[r.id], r)
                 && (forall u :: u in db.users ==> o.db.users[u] == db.users[u])
                 && if !MustVerify(db.settings, r.ctx.tenant) then o.reply == Done && o.db.oneTime == db.oneTime
                    else if Sha256(Text(r.id) + ":" + r.otp) in db.oneTime
                    then o.reply == Refused(Internal) && o.db.oneTime == db.oneTime
                    else o.reply == Done && CodeStored(db.oneTime, o.db.oneTime, r, now)
  {
    RegisterChecks(db, r);
  }

  /** A registration creates the account if and only if it may: active, unverified, with this address and password;
      where addresses must be verified it stores a code for 24 hours, and fails, leaving the account, if it cannot. */
  lemma RegistersExactly(run: Run, i: nat)
    requires run.Valid() && i < |run.events| && run.events[i].request.Register?
    ensures var r, db, after := run.events[i].request, run.states[i], run.states[i + 1];
            if !MayRegister(db, r) then run.replies[i] == Refused(RegisterError(db, r)) && after == db
            else && after.users.Keys == db.users.Keys + {r.id} && IsNew(after.users[r.id], r)
                 && (forall u :: u in db.users ==> after.users[u] == db.users[u])
                 && if !MustVerify(db.settings, r.ctx.tenant) then run.replies[i] == Done && after.oneTime == db.oneTime
                    else if Sha256(Text(r.id) + ":" + r.otp) in db.oneTime
                    then run.replies[i] == Refused(Internal) && after.oneTime == db.oneTime
                    else run.replies[i] == Done && CodeStored(db.oneTime, after.oneTime, r, run.events[i].now)
  {
    RegisterAt(run, i);
    RegisterDoes(run.states[i], run.events[i].now, run.events[i].request);
  }

  // ── Verified addresses ─────────────────────────────────────────────────────

  /** The code shown is on file for the account with this address: unused, unexpired, and a verification code. */
  predicate Verifies(db: Db, now: Time, r: Request, u: Uuid) {
    && r.VerifyEmail? && Addressed(db.users, Owner(r.ctx.tenant, u), r.ctx, r.email)
    && var h := Sha256(Text(u) + ":" + r.otp);
       h in db.oneTime && db.oneTime[h].kind == EmailVerification && db.oneTime[h].usedAt == None
       && now <= db.oneTime[h].expiresAt
  }

  lemma VerifyDoes(db: Db, now: Time, r: Request, u: Uuid)
    requires r.VerifyEmail? && Verifies(db, now, r, u) && UniqueLookups(db.users)
    ensures var o := VerifyEmailSpec(db, now, r.ctx, r.email, r.otp);
            && o.reply == Done && o.db.users == db.users[u := db.users[u].(verified := true)]
            && var h := Sha256(Text(u) + ":" + r.otp);
               o.db.oneTime == db.oneTime[h := db.oneTime[h].(usedAt := Some(now))]
  {
    FindsTheOne(db.users, r.ctx, r.email, Owner(r.ctx.tenant, u));
  }

  lemma VerifyRefuses(db: Db, now: Time, r: Request)
    requires r.VerifyEmail? && forall u :: !Verifies(db, now, r, u)
    ensures VerifyEmailSpec(db, now, r.ctx, r.email, r.otp) == Refuse(db, InvalidInput)
  {
    FindsAddressed(db.users, r.ctx, r.email);
    var found := FindByLookup(db.users, r.ctx.tenant, Lookup(r.email, r.ctx.key));
    if found.Some? {
      assert !Verifies(db, now, r, found.value);
    }
  }

  /** A verification marks the account verified and its code used if and only if the code fits; otherwise it is
      refused and changes nothing. */
  lemma VerifiedExactly(run: Run, i: nat, u: Uuid)
    requires run.Valid() && i < |run.events| && run.events[i].request.VerifyEmail?
    requires UniqueLookups(run.states[i].users)
    ensures Verifies(run.states[i], run.events[i].now, run.events[i].request, u)
            ==> var db, after, h := run.states[i], run.states[i + 1], Sha256(Text(u) + ":" + run.events[i].request.otp);
                && run.replies[i] == Done
                && after.users == db.users[u := db.users[u].(verified := true)]
                && after.oneTime == db.oneTime[h := db.oneTime[h].(usedAt := Some(run.events[i].now))]
    ensures (forall w :: !Verifies(run.states[i], run.events[i].now, run.events[i].request, w))
            ==> run.replies[i] == Refused(InvalidInput) && run.states[i + 1] == run.states[i]
  {
    var db, now, r := run.states[i], run.events[i].now, run.events[i].request;
    VerifyEmailAt(run, i);
    if Verifies(db, now, r, u) {
      VerifyDoes(db, now, r, u);
    } else if forall w :: !Verifies(db, now, r, w) {
      VerifyRefuses(db, now, r);
    }
  }

  // ── Resets ─────────────────────────────────────────────────────────────────

  /** The account's last passwords, as many as its tenant remembers. */
  function Recent(db: Db, account: Owner): seq<string> {
    Newest(OnFile(db, account), if account.tenant in db.historySize then db.historySize[account.tenant] else 0)
  }

  /** The token shown is on file as a reset token, unused and unexpired: the request will use it up. */
  predicate TokenSpent(db: Db, now: Time, token: string) {
    var h := Sha256(token);
    h in db.oneTime && db.oneTime[h].kind == PasswordReset && db.oneTime[h].usedAt == None
    && now <= db.oneTime[h].expiresAt
  }

  /** It is this tenant's and this user's, and the new password will do and is none of the last ones. */
  predicate Resets(db: Db, now: Time, r: Request, account: Owner) {
    && r.ResetPassword? && TokenSpent(db, now, r.token)
    && account.tenant == r.ctx.tenant && Holds(db.users, account)
    && r.formatOk && r.password.plain !in Recent(db, account)
    && var row := db.oneTime[Sha256(r.token)];
       row.tenant == account.tenant && row.user == account.user
  }

  lemma ResetChecks(db: Db, now: Time, r: Request, account: Owner)
    requires r.ResetPassword? && account.tenant == r.ctx.tenant
    ensures var v := JudgeReset(db, now, r.ctx, r.token, r.password.plain, r.formatOk);
            && (v == Accepted(account.user) <==> Resets(db, now, r, account))
            && (v.TokenRefused? <==> !TokenSpent(db, now, r.token))
  {
    ReusesIffRecent(db.history, account, r.password.plain, HistorySizeOf(db.historySize, account.tenant));
  }

  lemma ResetSpends(db: Db, now: Time, r: Request)
    requires r.ResetPassword?
    ensures var o, h := ResetPasswordSpec(db, now, r.ctx, r.token, r.password, r.formatOk), Sha256(r.token);
            && o.db.oneTime == (if TokenSpent(db, now, r.token)
                                then db.oneTime[h := db.oneTime[h].(usedAt := Some(now))] else db.oneTime)
            && (!TokenSpent(db, now, r.token)
                ==> o == Refuse(db, if h in db.oneTime && db.oneTime[h].kind == PasswordReset then InvalidInput
                                    else NotFound))
            && (TokenSpent(db, now, r.token) && db.oneTime[h].tenant != r.ctx.tenant
                ==> o.reply == Refused(Unauthorized))
  {
    ResetChecks(db, now, r, Owner(r.ctx.tenant, 0));
  }

  lemma ResetSucceeds(db: Db, now: Time, r: Request)
    requires r.ResetPassword?
    ensures var v := JudgeReset(db, now, r.ctx, r.token, r.password.plain, r.formatOk);
            v.Accepted? <==> exists account :: Resets(db, now, r, account)
  {
    var v := JudgeReset(db, now, r.ctx, r.token, r.password.plain, r.formatOk);
    if v.Accepted? {
      ResetChecks(db, now, r, Owner(r.ctx.tenant, v.user));
    } else if account :| Resets(db, now, r, account) {
      ResetChecks(db, now, r, account);
    }
  }

  /** A reset succeeds if and only if token, password and account fit, and uses up an unused, unexpired reset token
      whether it succeeds or not. */
  lemma ResetServedExactly(run: Run, i: nat)
    requires run.Valid() && i < |run.events| && run.events[i].request.ResetPassword?
    ensures var r, db, now := run.events[i].request, run.states[i], run.events[i].now;
            var h := Sha256(r.token);
            && (if exists account :: Resets(db, now, r, account) then run.replies[i] == Done
                else run.replies[i].Refused?)
            && (if TokenSpent(db, now, r.token)
                then run.states[i + 1].oneTime == db.oneTime[h := db.oneTime[h].(usedAt := Some(now))]
                else run.states[i + 1] == db)
  {
    var r, db, now := run.events[i].request, run.states[i], run.events[i].now;
    ResetPasswordAt(run, i);
    ResetSpends(db, now, r);
    ResetSucceeds(db, now, r);
  }

  // ── Updates ────────────────────────────────────────────────────────────────

  /** The sender administers the tenant, which is in service under this key; the account is there, a new address is
      no other account's, and a new password none of the last ones. */
  ghost predicate Updates(db: Db, cfg: Config, now: Time, r: Request, account: Owner, key: string) {
    && r.UpdateUser? && r.user == account.user && Administers(cfg, now, r.headers, account.tenant)
    && InService(db.tenants, cfg.wrapKey, account.tenant, key) && Holds(db.users, account)
    && (r.newEmail.Some? ==>
          forall u :: u in db.users && u != account.user
            ==> !(db.users[u].tenant == account.tenant && db.users[u].lookup == Lookup(r.newEmail.value, key)))
    && (r.newPassword.Some? ==> r.newPassword.value.plain !in Recent(db, account))
  }

  lemma TakenExactly(users: Users, t: Uuid, l: Lookup, u: Uuid)
    ensures LookupTaken(users, t, l, u)
            <==> exists w :: w in users && w != u && users[w].tenant == t && users[w].lookup == l
  {
    if w :| w in users && w != u && users[w].tenant == t && users[w].lookup == l {
      assert HasLookup(users, w, t, l);
    }
  }

  lemma UpdateChecks(db: Db, cfg: Config, now: Time, r: Request, account: Owner, key: string)
    requires r.UpdateUser? && UniqueIds(db.tenants)
    ensures AdminAccount(cfg, now, r.headers, r.user) == Ok(account)
            && UpdateCheck(db, cfg, account, r.newEmail, r.newPassword) == Ok(key)
            <==> Updates(db, cfg, now, r, account, key)
  {
    AdministersExactly(cfg, now, r.headers, r.user, account);
    TenantKeyExactly(db.tenants, cfg.wrapKey, account.tenant, key);
    if r.newEmail.Some? {
      TakenExactly(db.users, account.tenant, Lookup(r.newEmail.value, key), account.user);
    }
    if r.newPassword.Some? {
      ReusesIffRecent(db.history, account, r.newPassword.value.plain, HistorySizeOf(db.historySize, account.tenant));
    }
  }

  /** The row after an update: the new address and its lookup if there is one, the new password if there is one, the
      flag as asked, and whether it was verified as before. */
  ghost predicate Updated(before: User, after: User, r: Request, key: string)
    requires r.UpdateUser?
  {
    && after.tenant == before.tenant && after.active == r.active && after.verified == before.verified
    && (match r.newEmail
        case None => after.email == before.email && after.lookup == before.lookup
        case Some(email) =>
          after.email.plain == email && after.email.key == key && after.lookup == Lookup(email, key))
    && match r.newPassword
       case None => after.password == before.password
       case Some(p) => OnlyPassword(after.password, p.plain)
  }

  lemma UpdateDoes(db: Db, cfg: Config, now: Time, r: Request, account: Owner, key: string)
    requires UniqueIds(db.tenants) && Updates(db, cfg, now, r, account, key)
    ensures var o := UpdateUserSpec(db, cfg, now, r.headers, r.user, r.newEmail, r.newPassword, r.active);
            && o.reply == Done && o.db.users.Keys == db.users.Keys
            && Updated(db.users[account.user], o.db.users[account.user], r, key)
            && forall u :: u in db.users && u != account.user ==> o.db.users[u] == db.users[u]
  {
    UpdateChecks(db, cfg, now, r, account, key);
  }

  lemma UpdateRefuses(db: Db, cfg: Config, now: Time, r: Request)
    requires r.UpdateUser? && UniqueIds(db.tenants)
    requires forall account, key :: !Updates(db, cfg, now, r, account, key)
    ensures var o := UpdateUserSpec(db, cfg, now, r.headers, r.user, r.newEmail, r.newPassword, r.active);
            o.reply.Refused? && o.db == db
  {
    var who := AdminAccount(cfg, now, r.headers, r.user);
    if who.Ok? {
      var checked := UpdateCheck(db, cfg, who.value, r.newEmail, r.newPassword);
      if checked.Ok? {
        UpdateChecks(db, cfg, now, r, who.value, checked.value);
      }
    }
  }

  /** An update changes this account, as asked, if and only if it may; otherwise it is refused and changes nothing. */
  lemma UpdatedExactly(run: Run, i: nat, account: Owner, key: string)
    requires run.Valid() && i < |run.events| && run.events[i].request.UpdateUser? && UniqueIds(run.states[i].tenants)
    ensures Updates(run.states[i], run.cfg, run.events[i].now, run.events[i].request, account, key)
            ==> var db, after := run.states[i], run.states[i + 1];
                && run.replies[i] == Done && after.users.Keys == db.users.Keys
                && Updated(db.users[account.user], after.users[account.user], run.events[i].request, key)
                && forall u :: u in db.users && u != account.user ==> after.users[u] == db.users[u]
    ensures (forall a, k :: !Updates(run.states[i], run.cfg, run.events[i].now, run.events[i].request, a, k))
            ==> run.replies[i].Refused? && run.states[i + 1] == run.states[i]
  {
    var db, now, r := run.states[i], run.events[i].now, run.events[i].request;
    UpdateUserAt(run, i);
    if Updates(db, run.cfg, now, r, account, key) {
      UpdateDoes(db, run.cfg, now, r, account, key);
    } else if forall a, k :: !Updates(db, run.cfg, now, r, a, k) {
      UpdateRefuses(db, run.cfg, now, r);
    }
  }
}
