/** What a successful password reset ends for good, every refresh token of the account, and what it leaves
    standing: its sessions and access tokens. */
module PasswordResets {
  import opened Prelude
  import opened Uuids
  import opened Crypto
  import opened Jwt
  import opened Schema
  import opened Handlers
  import opened Runs
  import opened RefreshFamilies
  import opened ActiveAccounts
  import Revocations

  /** Foreign keys of refresh_tokens, and more: a row's tenant is its user's tenant. */
  ghost predicate RowsBelong(db: Db) {
    forall h :: h in db.refresh ==> VisibleUser(db.users, db.refresh[h].tenant, db.refresh[h].user).Some?
  }

  lemma {:induction false} RowsAlwaysBelong(run: Run, i: nat)
    requires run.Valid() && RowsBelong(run.states[0]) && i <= |run.events|
    ensures RowsBelong(run.states[i])
  {
    if i > 0 {
      RowsAlwaysBelong(run, i - 1);
      Obeys(run, i - 1);
    }
  }

  /** Event `k` resets the password of `account`. */
  ghost predicate Resets(run: Run, k: nat, account: Owner)
    requires run.Shaped()
  {
    k < |run.events| && run.events[k].request.ResetPassword? && run.replies[k] == Done
    && var r := run.events[k].request;
       r.ctx.tenant == account.tenant
       && JudgeReset(run.states[k], run.events[k].now, r.ctx, r.token, r.password.plain, r.formatOk)
          == Accepted(account.user)
  }

  /** The reset itself leaves the account no live token, of whatever tenant column. */
  lemma ResetKillsAll(run: Run, k: nat, account: Owner, h: Digest)
    requires run.Valid() && RowsBelong(run.states[0]) && Resets(run, k, account)
    requires h in run.states[k + 1].refresh && run.states[k + 1].refresh[h].user == account.user
    ensures run.states[k + 1].refresh[h].revokedAt.Some?
  {
    RowsAlwaysBelong(run, k);
    ResetPasswordAt(run, k);
  }

  /** Unless drawn anew, a token on file later was on file before, for the same user. */
  lemma {:induction false} OnFileBefore(run: Run, i: nat, k: nat, h: Digest)
    requires run.Valid() && i <= k <= |run.events| && h in run.states[k].refresh
    requires forall m :: i <= m < k ==> !MintsAt(run, m, h)
    ensures h in run.states[i].refresh && run.states[i].refresh[h].user == run.states[k].refresh[h].user
  {
    if i < k {
      Obeys(run, k - 1);
      assert !MintsAt(run, k - 1, h);
      OnFileBefore(run, i, k - 1, h);
    }
  }

  /** Every refresh accepted for the account after the reset presents a token drawn after the
      reset. No assumption on random values is needed. */
  lemma ResetIsFinal(run: Run, k: nat, account: Owner, i: nat) returns (m: nat)
    requires run.Valid() && RowsBelong(run.states[0]) && Resets(run, k, account)
    requires k < i && Serves(run, i, account)
    ensures k < m < i && MintsAt(run, m, Sha256(Shown(run, i)))
  {
    var h := Sha256(Shown(run, i));
    if !exists m' :: k + 1 <= m' < i && MintsAt(run, m', h) {
      OnFileBefore(run, k + 1, i, h);
      ResetKillsAll(run, k, account, h);
      DeadForGood(run, k + 1, i, h);
      assert false;
    }
    m :| k + 1 <= m < i && MintsAt(run, m, h);
  }

  // ── What a reset leaves standing ───────────────────────────────────────────

  /** The session stands for the account in this table. */
  predicate SessionOf(sessions: SessionTable, s: string, account: Owner) {
    s in sessions && Owner(sessions[s].tenant, sessions[s].user) == account
  }

  lemma ResetKeepsSessions(run: Run, k: nat, account: Owner)
    requires run.Valid() && Resets(run, k, account)
    ensures run.states[k + 1].sessions == run.states[k].sessions && run.states[k + 1].jtis == run.states[k].jtis
  {
    Obeys(run, k);
  }

  lemma {:induction false} SessionStays(run: Run, k: nat, i: nat, s: string, account: Owner)
    requires run.Valid() && run.Monotone() && k <= i < |run.events| && SessionOf(run.states[k].sessions, s, account)
    requires run.events[i].now <= run.states[k].sessions[s].expiresAt
    requires forall m :: k <= m < i ==> !Revocations.GivesUp(run, m, s)
    ensures SessionOf(run.states[i].sessions, s, account)
    ensures run.states[i].sessions[s].expiresAt == run.states[k].sessions[s].expiresAt
  {
    if k < i {
      assert run.events[i - 1].now <= run.events[i].now;
      SessionStays(run, k, i - 1, s, account);
      Revocations.SessionsMove(run, i - 1, s);
    }
  }

  lemma {:induction false} SessionKeepsExpiry(run: Run, k: nat, i: nat, s: string)
    requires run.Valid() && k <= i <= |run.events| && s in run.states[k].sessions && s in run.states[i].sessions
    requires forall m :: k <= m < i ==> !Revocations.DrawsSession(run.events[m].request, s)
    ensures run.states[i].sessions[s].expiresAt == run.states[k].sessions[s].expiresAt
  {
    if k < i {
      if s !in run.states[i - 1].sessions {
        Revocations.SessionsAreDrawn(run, i - 1, s);
      }
      SessionKeepsExpiry(run, k, i - 1, s);
      Revocations.SessionStands(run, i - 1, s);
    }
  }

  /** Until it expires, a session whose id is not drawn anew is on file exactly if it was not given up. */
  lemma SessionOnFile(run: Run, k: nat, i: nat, s: string, account: Owner)
    requires run.Valid() && run.Monotone() && k <= i < |run.events| && SessionOf(run.states[k].sessions, s, account)
    requires forall m :: k <= m < i ==> !Revocations.DrawsSession(run.events[m].request, s)
    ensures run.events[i].now <= run.states[k].sessions[s].expiresAt
            ==> (s in run.states[i].sessions <==> forall m :: k <= m < i ==> !Revocations.GivesUp(run, m, s))
    ensures run.events[i].now <= run.states[k].sessions[s].expiresAt && s in run.states[i].sessions
            ==> SessionOf(run.states[i].sessions, s, account)
  {
    if m :| k <= m < i && Revocations.GivesUp(run, m, s) {
      LogoutAt(run, m);
      Revocations.SessionStaysGone(run, m + 1, i, s);
    } else if run.events[i].now <= run.states[k].sessions[s].expiresAt {
      SessionStays(run, k, i, s, account);
    }
  }

  /** After a reset, in any continuation: a session cookie from before it still authorizes in the account's
      name if and only if the session has not expired and was not given up at a logout. */
  lemma OldSessionIdentifies(run: Run, k: nat, account: Owner, s: string, i: nat)
    requires run.Valid() && run.Monotone() && Resets(run, k, account) && SessionOf(run.states[k].sessions, s, account)
    requires k < i < |run.events|
    requires forall m :: k < m < i ==> !Revocations.DrawsSession(run.events[m].request, s)
    ensures Identify(run.states[i], run.cfg, run.events[i].now, Cookie(s)) == Ok(account)
            <==> run.events[i].now < run.states[k].sessions[s].expiresAt
                 && forall m :: k < m < i ==> !Revocations.GivesUp(run, m, s)
  {
    ResetKeepsSessions(run, k, account);
    SessionOnFile(run, k + 1, i, s, account);
    if s in run.states[i].sessions {
      SessionKeepsExpiry(run, k + 1, i, s);
    }
  }

  /** The claims of the token name the account. */
  predicate Names(t: Token, account: Owner) {
    match ReadClaims(t.payload)
    case None => false
    case Some(c) => Parse(c.sub) == Some(account.user) && Parse(c.tid) == Some(account.tenant)
  }

  /** And an access token of the account from before the reset still does if and only if it is still valid and
      its id is not on file, where the reset does not put it. */
  lemma OldTokenIdentifies(run: Run, k: nat, account: Owner, t: Token, now: Time)
    requires run.Valid() && Resets(run, k, account) && Names(t, account)
    ensures Identify(run.states[k + 1], run.cfg, now, Bearer(t)) == Ok(account)
            <==> match ValidateAccess(t, run.cfg.keys, now)
                 case None => false
                 case Some(c) => c.jti !in run.states[k].jtis
  {
    ResetKeepsSessions(run, k, account);
  }

  lemma ResetKeepsGrant(db: Db, cfg: Config, reset: Time, ctx: Ctx, token: string, password: NewPassword, now: Time,
                        s: string, p: AuthorizeParams, code: string, secret: Option<string>, verifier: string,
                        account: Owner)
    requires WillBeGranted(db, cfg, now, Cookie(s), p, code, secret, verifier, account)
    ensures WillBeGranted(ResetPasswordSpec(db, reset, ctx, token, password, true).db, cfg, now, Cookie(s), p, code,
                          secret, verifier, account)
  {}

  lemma ResetThenGranted(run: Run, ctx: Ctx, token: string, password: NewPassword, now: Time, s: string,
                         p: AuthorizeParams, code: string, secret: Option<string>, verifier: string, account: Owner)
    requires run.Valid() && |run.events| >= 1 && run.events[0].request == ResetPassword(ctx, token, password, true)
    requires JudgeReset(run.states[0], run.events[0].now, ctx, token, password.plain, true) == Accepted(account.user)
    requires ctx.tenant == account.tenant
    requires WillBeGranted(run.states[0], run.cfg, now, Cookie(s), p, code, secret, verifier, account)
    ensures Resets(run, 0, account)
    ensures WillBeGranted(run.states[1], run.cfg, now, Cookie(s), p, code, secret, verifier, account)
  {
    ResetPasswordAt(run, 0);
    ResetKeepsGrant(run.states[0], run.cfg, run.events[0].now, ctx, token, password, now, s, p, code, secret, verifier,
                    account);
  }

  lemma CookieIsGranted(run: Run, s: string, p: AuthorizeParams, code: string, secret: Option<string>, verifier: string,
                        account: Owner)
    requires run.Valid() && |run.events| >= 2 && run.events[1].request == Authorize(Cookie(s), p, code)
    requires WillBeGranted(run.states[1], run.cfg, run.events[1].now, Cookie(s), p, code, secret, verifier, account)
    ensures run.replies[1] == CodeIssued(code)
    ensures run.states[2]
            == run.states[1].(codes := run.states[1].codes[code := NewCode(account, p, run.events[1].now)],
                              sessions := SessionsSeen(run.states[1].sessions, Cookie(s), run.events[1].now))
  {
    AuthorizeAt(run, 1);
    GrantStoresCode(run.states[1], run.cfg, run.events[1].now, Cookie(s), p, code, secret, verifier, account);
  }

  lemma CodeStoresRefresh(run: Run, granted: Time, p: AuthorizeParams, code: string, secret: Option<string>,
                          verifier: string, account: Owner, mint: Issuance)
    requires run.Valid() && |run.events| >= 3
    requires run.events[2].request == Exchange(Redemption(p, code, secret, verifier), mint)
    requires ExchangeCheck(run.states[2], run.cfg, run.events[2].now, Redemption(p, code, secret, verifier))
             == Ok(NewCode(account, p, granted))
    ensures Sha256(mint.refresh) in run.states[3].refresh
            && run.states[3].refresh[Sha256(mint.refresh)].revokedAt == None
  {
    ExchangeAt(run, 2);
  }

  lemma CookieIsServed(run: Run, s: string, p: AuthorizeParams, code: string, secret: Option<string>, verifier: string,
                       account: Owner, mint: Issuance)
    requires run.Valid() && |run.events| >= 3 && run.events[1].request == Authorize(Cookie(s), p, code)
    requires run.events[2].request == Exchange(Redemption(p, code, secret, verifier), mint)
    requires WillBeGranted(run.states[1], run.cfg, run.events[1].now, Cookie(s), p, code, secret, verifier, account)
    requires run.events[2].now <= run.events[1].now + 600
    ensures IssuesTo(run, 2, account) && Sha256(mint.refresh) in run.states[3].refresh
    ensures run.states[3].refresh[Sha256(mint.refresh)].revokedAt == None
  {
    var granted := run.events[1].now;
    CookieIsGranted(run, s, p, code, secret, verifier, account);
    CodeStillRedeems(run.states[2], run.cfg, granted, run.events[2].now, p, code, secret, verifier, account);
    CodeIsServed(run, 2, granted, p, code, secret, verifier, account, mint);
    CodeStoresRefresh(run, granted, p, code, secret, verifier, account, mint);
  }

  /** The witness: whatever account of whatever database has a session, its password is reset, the session cookie
      from before obtains a code, and the code a new access token and a live refresh token. */
  lemma OldSessionIsServed(db: Db, cfg: Config, ctx: Ctx, token: string, password: NewPassword, s: string,
                           p: AuthorizeParams, code: string, secret: Option<string>, verifier: string, account: Owner,
                           mint: Issuance, reset: Time, granted: Time, redeemed: Time) returns (run: Run)
    requires JudgeReset(db, reset, ctx, token, password.plain, true) == Accepted(account.user)
             && ctx.tenant == account.tenant
    requires WillBeGranted(db, cfg, granted, Cookie(s), p, code, secret, verifier, account) && redeemed <= granted + 600
    ensures run.Valid() && run.cfg == cfg && run.states[0] == db
    ensures run.events == [Event(reset, ResetPassword(ctx, token, password, true)),
                           Event(granted, Authorize(Cookie(s), p, code)),
                           Event(redeemed, Exchange(Redemption(p, code, secret, verifier), mint))]
    ensures SessionOf(db.sessions, s, account) && Resets(run, 0, account) && IssuesTo(run, 2, account)
    ensures Sha256(mint.refresh) in run.states[3].refresh
            && run.states[3].refresh[Sha256(mint.refresh)].revokedAt == None
  {
    var resets := Event(reset, ResetPassword(ctx, token, password, true));
    var grant := Event(granted, Authorize(Cookie(s), p, code));
    var exchange := Event(redeemed, Exchange(Redemption(p, code, secret, verifier), mint));
    run := RunOf(cfg, db, [resets, grant, exchange]);
    assert run.events[0] == resets && run.events[1] == grant && run.events[2] == exchange;
    ResetThenGranted(run, ctx, token, password, granted, s, p, code, secret, verifier, account);
    CookieIsServed(run, s, p, code, secret, verifier, account, mint);
  }
}
