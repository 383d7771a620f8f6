/** Logout, token revocation and sessions over whole runs: which requests a revoked access token still
    opens and which it does not, and that every session goes back to a sign-in. */
module Revocations {
  import opened Prelude
  import opened Uuids
  import opened AdminAuth
  import opened Crypto
  import opened Jwt
  import opened Schema
  import opened Handlers
  import opened Runs
  import RefreshFamilies
  import CleanupUnseen
  import CodeFlow

  // ── Access tokens ──────────────────────────────────────────────────────────

  lemma JtisStandAt(run: Run, i: nat)
    requires run.Valid() && i < |run.events|
    ensures JtisStand(run.states[i].jtis, run.states[i + 1].jtis, run.events[i].now)
  {
    match run.events[i].request
    case Logout(_, _, _, _) => LogoutAt(run, i);
    case OauthRevoke(_, _, _) => OauthRevokeAt(run, i);
    case Cleanup => CleanupAt(run, i);
    case _ => Obeys(run, i);
  }

  /** A revoked id stays on file until the expiry stored with it, whatever cleanups run. */
  lemma {:induction false} JtiStands(run: Run, k: nat, i: nat, jti: string)
    requires run.Valid() && run.Monotone() && k <= i <= |run.events| && jti in run.states[k].jtis
    requires i > k ==> run.events[i - 1].now <= run.states[k].jtis[jti]
    ensures jti in run.states[i].jtis && run.states[i].jtis[jti] == run.states[k].jtis[jti]
  {
    if k < i {
      if k < i - 1 {
        assert run.events[i - 2].now <= run.events[i - 1].now;
      }
      JtiStands(run, k, i - 1, jti);
      JtisStandAt(run, i - 1);
    }
  }

  /** The access token that a request carries to say who is asking. */
  function BearerOf(r: Request): Option<Token> {
    match r
    case Authorize(Bearer(t), _, _) => Some(t)
    case MfaSetup(_, t, _) => Some(t)
    case MfaConfirm(_, t, _) => Some(t)
    case MfaDisable(_, t, _) => Some(t)
    case MfaBackupCodes(_, t, _, _) => Some(t)
    case Logout(_, t, _, _) => Some(t)
    case RevokeAll(_, t) => Some(t)
    case OauthRevoke(t, _, _) => Some(t)
    case AdminDisableMfa(headers, _) => headers.bearer
    case UpdateUser(headers, _, _, _, _) => headers.bearer
    case _ => None
  }

  function BearerClaims(cfg: Config, e: Event): Option<Claims> {
    if BearerOf(e.request).None? then None else ValidateAccess(BearerOf(e.request).value, cfg.keys, e.now)
  }

  /** The requests that look the token's id up among the revoked ones. */
  predicate LooksUp(r: Request) {
    || (r.Authorize? && r.credential.Bearer?) || r.MfaSetup? || r.MfaConfirm? || r.MfaDisable? || r.MfaBackupCodes?
    || r.Logout? || r.RevokeAll?
  }

  predicate IsAdminCall(r: Request) { r.AdminDisableMfa? || r.UpdateUser? }

  predicate DeniedAdmin(cfg: Config, e: Event) {
    IsAdminCall(e.request)
    && RequireAdmin(e.request.headers, AdminConfig(cfg.keys, cfg.adminKey, cfg.master), e.now).Denied?
  }

  /** Event `i` carries a valid access token with this id. */
  predicate Presents(run: Run, i: nat, jti: string) {
    i < |run.events|
    && var claims := BearerClaims(run.cfg, run.events[i]);
       claims.Some? && claims.value.jti == jti
  }

  lemma RevokedIsRefused(run: Run, i: nat, jti: string)
    requires run.Valid() && Presents(run, i, jti) && LooksUp(run.events[i].request) && jti in run.states[i].jtis
    ensures run.replies[i] == Refused(Unauthorized) && run.states[i + 1] == run.states[i]
  {
    match run.events[i].request
    case Authorize(_, _, _) => AuthorizeAt(run, i);
    case MfaSetup(_, _, _) => MfaSetupAt(run, i);
    case MfaConfirm(_, _, _) => MfaConfirmAt(run, i);
    case MfaDisable(_, _, _) => MfaDisableAt(run, i);
    case MfaBackupCodes(_, _, _, _) => MfaBackupCodesAt(run, i);
    case Logout(_, _, _, _) => LogoutAt(run, i);
    case RevokeAll(_, _) => RevokeAllAt(run, i);
  }

  /** The answer at `i`, and everything but the revoked ids after it, are as if no id had been revoked. */
  ghost predicate Overlooked(run: Run, i: nat)
    requires run.Shaped() && i < |run.events|
  {
    var blind := Step(run.states[i].(jtis := map[]), run.cfg, run.events[i]);
    run.replies[i] == blind.reply && run.states[i + 1] == blind.db.(jtis := run.states[i + 1].jtis)
  }

  lemma OauthRevokeOverlooks(db: Db, cfg: Config, now: Time, bearer: Token, presented: Presented, hint: bool,
                             caller: Claims)
    requires ValidateAccess(bearer, cfg.keys, now) == Some(caller)
    ensures var seen, blind := OauthRevokeSpec(db, cfg, now, bearer, presented, hint),
                               OauthRevokeSpec(db.(jtis := map[]), cfg, now, bearer, presented, hint);
            seen.reply == blind.reply && seen.db == blind.db.(jtis := seen.db.jtis)
  {
    if !hint && OwnAccessToken(cfg, now, caller, presented) {
      CleanupUnseen.AccessRevoked(db, cfg, now, bearer, presented, hint, caller);
      CleanupUnseen.AccessRevoked(db.(jtis := map[]), cfg, now, bearer, presented, hint, caller);
    } else {
      CleanupUnseen.RefreshRevoked(db, cfg, now, bearer, presented, hint, caller);
      CleanupUnseen.RefreshRevoked(db.(jtis := map[]), cfg, now, bearer, presented, hint, caller);
    }
  }

  lemma UpdateOverlooks(db: Db, cfg: Config, now: Time, headers: Headers, user: Uuid, newEmail: Option<string>,
                        newPassword: Option<NewPassword>, active: bool)
    ensures var seen, blind := UpdateUserSpec(db, cfg, now, headers, user, newEmail, newPassword, active),
                               UpdateUserSpec(db.(jtis := map[]), cfg, now, headers, user, newEmail, newPassword,
                                              active);
            seen.reply == blind.reply && seen.db == blind.db.(jtis := seen.db.jtis)
  {
    var who := AdminAccount(cfg, now, headers, user);
    if who.Ok? {
      assert UpdateCheck(db.(jtis := map[]), cfg, who.value, newEmail, newPassword)
             == UpdateCheck(db, cfg, who.value, newEmail, newPassword);
    }
  }

  lemma RevokedIsOverlooked(run: Run, i: nat, jti: string)
    requires run.Valid() && Presents(run, i, jti) && !LooksUp(run.events[i].request)
    ensures Overlooked(run, i)
  {
    var db, now := run.states[i], run.events[i].now;
    match run.events[i].request
    case OauthRevoke(bearer, presented, hint) =>
      OauthRevokeAt(run, i);
      OauthRevokeOverlooks(db, run.cfg, now, bearer, presented, hint, ValidateAccess(bearer, run.cfg.keys, now).value);
    case AdminDisableMfa(_, _) => AdminDisableMfaAt(run, i);
    case UpdateUser(headers, user, newEmail, newPassword, active) =>
      UpdateUserAt(run, i);
      UpdateOverlooks(db, run.cfg, now, headers, user, newEmail, newPassword, active);
  }

  /** What becomes of a request with a valid token whose id is on file: it is refused and changes nothing
      if its handler looks the id up, and is served as if the id were not there if not. */
  lemma RevokedMeetsLookup(run: Run, i: nat, jti: string)
    requires run.Valid() && Presents(run, i, jti) && jti in run.states[i].jtis
    ensures if LooksUp(run.events[i].request)
            then run.replies[i] == Refused(Unauthorized) && run.states[i + 1] == run.states[i]
            else Overlooked(run, i)
  {
    if LooksUp(run.events[i].request) {
      RevokedIsRefused(run, i, jti);
    } else {
      RevokedIsOverlooked(run, i, jti);
    }
  }

  /** A database without tenants in which this id is revoked. */
  function OnlyRevoked(jti: string): Db {
    Db(map[], map[], [], map[], map[], map[], map[], map[jti := 0], map[], [], map[], map[], map[], [], [])
  }

  lemma UpdateIsServed(cfg: Config, now: Time, headers: Headers, user: Uuid, newEmail: Option<string>,
                       newPassword: Option<NewPassword>, active: bool, jti: string)
    requires !RequireAdmin(headers, AdminConfig(cfg.keys, cfg.adminKey, cfg.master), now).Denied?
    ensures UpdateUserSpec(OnlyRevoked(jti), cfg, now, headers, user, newEmail, newPassword, active).reply
            != Refused(Unauthorized)
  {}

  lemma AdminIsServed(cfg: Config, e: Event, jti: string)
    requires IsAdminCall(e.request) && !DeniedAdmin(cfg, e)
    ensures Step(OnlyRevoked(jti), cfg, e).reply != Refused(Unauthorized)
  {
    match e.request
    case AdminDisableMfa(_, _) =>
    case UpdateUser(headers, user, newEmail, newPassword, active) =>
      UpdateIsServed(cfg, e.now, headers, user, newEmail, newPassword, active, jti);
  }

  lemma DeniedIsRefused(db: Db, cfg: Config, e: Event)
    requires DeniedAdmin(cfg, e)
    ensures Step(db, cfg, e) == Refuse(db, Unauthorized)
  {}

  lemma LookupRefuses(db: Db, cfg: Config, e: Event, c: Claims)
    requires LooksUp(e.request) && BearerClaims(cfg, e) == Some(c) && c.jti in db.jtis
    ensures Step(db, cfg, e) == Refuse(db, Unauthorized)
  {}

  ghost predicate AlwaysRefused(cfg: Config, e: Event, jti: string) {
    forall db: Db :: jti in db.jtis ==> Step(db, cfg, e) == Refuse(db, Unauthorized)
  }

  /** A request with a valid token is refused in every database that has the token's id on file if and
      only if it is one of the seven that look the id up, or an administrative call whose sender is no
      administrator anyway. */
  lemma RefusesRevokedExactly(cfg: Config, e: Event, c: Claims)
    requires BearerClaims(cfg, e) == Some(c)
    ensures AlwaysRefused(cfg, e, c.jti) <==> LooksUp(e.request) || DeniedAdmin(cfg, e)
  {
    if LooksUp(e.request) {
      forall db: Db | c.jti in db.jtis ensures Step(db, cfg, e) == Refuse(db, Unauthorized) {
        LookupRefuses(db, cfg, e, c);
      }
    } else if DeniedAdmin(cfg, e) {
      forall db: Db | c.jti in db.jtis ensures Step(db, cfg, e) == Refuse(db, Unauthorized) {
        DeniedIsRefused(db, cfg, e);
      }
    } else {
      var db := OnlyRevoked(c.jti);
      assert Step(db, cfg, e).reply != Refused(Unauthorized) by {
        if IsAdminCall(e.request) {
          AdminIsServed(cfg, e, c.jti);
        }
      }
      assert c.jti in db.jtis;
    }
  }

  /** From the moment an id is on file until its stored expiry, the handlers that look ids up refuse it
      and change nothing; the revocation endpoint and the administrative calls take no notice. */
  lemma RevokedUntilExpiry(run: Run, k: nat, i: nat, jti: string)
    requires run.Valid() && run.Monotone() && k <= i && Presents(run, i, jti)
    requires jti in run.states[k].jtis && run.events[i].now <= run.states[k].jtis[jti]
    ensures if LooksUp(run.events[i].request)
            then run.replies[i] == Refused(Unauthorized) && run.states[i + 1] == run.states[i]
            else Overlooked(run, i)
  {
    if k < i {
      assert run.events[i - 1].now <= run.events[i].now;
    }
    JtiStands(run, k, i, jti);
    RevokedMeetsLookup(run, i, jti);
  }

  /** Event `k` logs out the bearer of a token that the current secret signed. */
  predicate LogsOut(run: Run, k: nat, c: Claims)
    requires run.Shaped()
  {
    k < |run.events| && run.events[k].request.Logout? && run.replies[k] == Done
    && DecodeAccess(run.events[k].request.bearer, run.cfg.keys.secret, run.cfg.keys.leeway, run.events[k].now)
       == Some(c)
  }

  /** From logout until its expiry the token opens none of the handlers that look ids up, in any
      continuation, and the others as before. */
  lemma LogoutHoldsAtLookups(run: Run, k: nat, c: Claims, i: nat)
    requires run.Valid() && run.Monotone() && LogsOut(run, k, c)
    requires k < i && Presents(run, i, c.jti) && run.events[i].now <= c.exp
    ensures if LooksUp(run.events[i].request)
            then run.replies[i] == Refused(Unauthorized) && run.states[i + 1] == run.states[i]
            else Overlooked(run, i)
  {
    LogoutAt(run, k);
    RevokedUntilExpiry(run, k + 1, i, c.jti);
  }

  /** Event `k` asks to revoke the caller's own access token with claims `c`, not revoked before. */
  predicate RevokesAccess(run: Run, k: nat, c: Claims)
    requires run.Shaped()
  {
    k < |run.events| && run.events[k].request.OauthRevoke?
    && var r, now := run.events[k].request, run.events[k].now;
       var caller := ValidateAccess(r.bearer, run.cfg.keys, now);
       && caller.Some? && !r.hintRefresh && OwnAccessToken(run.cfg, now, caller.value, r.presented)
       && ValidateAccess(r.presented.jwt, run.cfg.keys, now) == Some(c)
       && c.jti !in run.states[k].jtis
  }

  lemma OauthRevocationHoldsAtLookups(run: Run, k: nat, c: Claims, i: nat)
    requires run.Valid() && run.Monotone() && RevokesAccess(run, k, c)
    requires k < i && Presents(run, i, c.jti) && run.events[i].now <= c.exp
    ensures if LooksUp(run.events[i].request)
            then run.replies[i] == Refused(Unauthorized) && run.states[i + 1] == run.states[i]
            else Overlooked(run, i)
  {
    OauthRevokeAt(run, k);
    RevokedUntilExpiry(run, k + 1, i, c.jti);
  }

  // ── What a revoked access token still opens ────────────────────────────────

  /** `presented` is a refresh token of the caller's, not revoked yet. */
  predicate OwnUnrevokedRefresh(table: RefreshTable, caller: Claims, presented: Presented) {
    presented.OtherText? && Sha256(presented.text) in table && table[Sha256(presented.text)].revokedAt.None?
    && Parse(caller.sub) == Some(table[Sha256(presented.text)].user)
  }

  /** A revocation request of a valid caller, revoked or not, is answered Done, and changes the database
      if and only if it presents an unrevoked token of the caller's own. */
  lemma OauthRevokeChangesExactly(db: Db, cfg: Config, now: Time, bearer: Token, presented: Presented, hint: bool,
                                  caller: Claims)
    requires ValidateAccess(bearer, cfg.keys, now) == Some(caller)
    ensures var o := OauthRevokeSpec(db, cfg, now, bearer, presented, hint);
            && o.reply == Done
            && (o.db != db
                <==> || (!hint && OwnAccessToken(cfg, now, caller, presented)
                         && ValidateAccess(presented.jwt, cfg.keys, now).value.jti !in db.jtis)
                     || OwnUnrevokedRefresh(db.refresh, caller, presented))
  {
    var o := OauthRevokeSpec(db, cfg, now, bearer, presented, hint);
    if !hint && OwnAccessToken(cfg, now, caller, presented) {
      CleanupUnseen.AccessRevoked(db, cfg, now, bearer, presented, hint, caller);
      var c := ValidateAccess(presented.jwt, cfg.keys, now).value;
      assert c.jti in o.db.jtis && (c.jti in db.jtis ==> o.db == db);
    } else {
      CleanupUnseen.RefreshRevoked(db, cfg, now, bearer, presented, hint, caller);
      RefreshChangesExactly(db.refresh, now, caller, presented);
    }
  }

  lemma RefreshChangesExactly(table: RefreshTable, now: Time, caller: Claims, presented: Presented)
    ensures RevokeOwnRefresh(table, now, caller, presented) != table <==> OwnUnrevokedRefresh(table, caller, presented)
  {
    if OwnUnrevokedRefresh(table, caller, presented) {
      assert RevokeOwnRefresh(table, now, caller, presented)[Sha256(presented.text)].revokedAt.Some?;
    }
  }

  /** A logout that goes through, with the request that follows it. */
  lemma LogoutThen(db: Db, cfg: Config, ctx: Ctx, bearer: Token, refreshToken: string, out: Time, c: Claims, e: Event)
    returns (run: Run)
    requires Authenticate(db, cfg, out, ctx, bearer) == Ok(c)
    ensures run.Valid() && run.cfg == cfg && run.states[0] == db
    ensures run.events == [Event(out, Logout(ctx, bearer, None, refreshToken)), e]
    ensures run.replies[0] == Done && c.jti in run.states[1].jtis
    ensures run.states[1] == db.(jtis := run.states[1].jtis,
                                 refresh := RevokeShown(db.refresh, ctx.tenant, Subject(c), refreshToken, out))
  {
    run := RunOf(cfg, db, [Event(out, Logout(ctx, bearer, None, refreshToken)), e]);
    assert run.events[0] == Event(out, Logout(ctx, bearer, None, refreshToken));
    LogoutAt(run, 0);
  }

  /** A logged-out token still revokes its account's other refresh tokens. */
  lemma RevokedStillRevokes(db: Db, cfg: Config, ctx: Ctx, bearer: Token, refreshToken: string, out: Time, c: Claims,
                            text: string, now: Time) returns (run: Run)
    requires Authenticate(db, cfg, out, ctx, bearer) == Ok(c) && ValidateAccess(bearer, cfg.keys, now) == Some(c)
    requires OwnUnrevokedRefresh(db.refresh, c, OtherText(text)) && text != refreshToken
    ensures run.Valid() && run.cfg == cfg && run.states[0] == db
    ensures run.events == [Event(out, Logout(ctx, bearer, None, refreshToken)),
                           Event(now, OauthRevoke(bearer, OtherText(text), true))]
    ensures c.jti in run.states[1].jtis && run.replies == [Done, Done]
    ensures var h := Sha256(text);
            && h in run.states[1].refresh && run.states[1].refresh[h].revokedAt == None
            && h in run.states[2].refresh && run.states[2].refresh[h].revokedAt == Some(now)
  {
    var revoke := Event(now, OauthRevoke(bearer, OtherText(text), true));
    run := LogoutThen(db, cfg, ctx, bearer, refreshToken, out, c, revoke);
    assert run.events[1] == revoke;
    OauthRevokeAt(run, 1);
  }

  /** A logged-out administrator still administers: the token switches off an account's second factor. */
  lemma RevokedAdminStillServed(db: Db, cfg: Config, ctx: Ctx, bearer: Token, refreshToken: string, out: Time,
                                c: Claims, headers: Headers, account: Owner, now: Time) returns (run: Run)
    requires Authenticate(db, cfg, out, ctx, bearer) == Ok(c) && account in db.totp
    requires headers.bearer == Some(bearer) && !ShowsAdminKey(headers, AdminConfig(cfg.keys, cfg.adminKey, cfg.master))
    requires AdminAccount(cfg, now, headers, account.user) == Ok(account)
    ensures run.Valid() && run.cfg == cfg && run.states[0] == db
    ensures run.events == [Event(out, Logout(ctx, bearer, None, refreshToken)),
                           Event(now, AdminDisableMfa(headers, account.user))]
    ensures c.jti in run.states[1].jtis && run.replies == [Done, Done]
    ensures account in run.states[1].totp && account !in run.states[2].totp
  {
    var disable := Event(now, AdminDisableMfa(headers, account.user));
    run := LogoutThen(db, cfg, ctx, bearer, refreshToken, out, c, disable);
    assert run.events[1] == disable;
    AdminDisableMfaAt(run, 1);
  }

  /** Introspection calls a token active exactly if it is valid, whether its id is on file or not: a
      logged-out token is reported as active. */
  lemma RevokedIntrospectsActive(db: Db, cfg: Config, ctx: Ctx, bearer: Token, refreshToken: string, out: Time,
                                 c: Claims, headers: Headers, now: Time) returns (run: Run)
    requires Authenticate(db, cfg, out, ctx, bearer) == Ok(c) && ValidateAccess(bearer, cfg.keys, now) == Some(c)
    requires ShowsAdminKey(headers, AdminConfig(cfg.keys, cfg.adminKey, cfg.master))
    ensures run.Valid() && run.cfg == cfg && run.states[0] == db
    ensures run.events == [Event(out, Logout(ctx, bearer, None, refreshToken)),
                           Event(now, Introspect(headers, JwtText(bearer)))]
    ensures c.jti in run.states[1].jtis && run.replies == [Done, TokenActive(c)]
  {
    var introspect := Event(now, Introspect(headers, JwtText(bearer)));
    run := LogoutThen(db, cfg, ctx, bearer, refreshToken, out, c, introspect);
    assert run.events[1] == introspect;
    IntrospectAt(run, 1);
  }

  /** Every answer of introspection: active if and only if the validator accepts the text. */
  lemma IntrospectionIsValidity(run: Run, i: nat)
    requires run.Valid() && i < |run.events| && run.events[i].request.Introspect? && !run.replies[i].Refused?
    ensures var presented := run.events[i].request.presented;
            run.replies[i].TokenActive?
            <==> presented.JwtText? && ValidateAccess(presented.jwt, run.cfg.keys, run.events[i].now).Some?
  {
    IntrospectAt(run, i);
  }

  // ── Refresh tokens ─────────────────────────────────────────────────────────

  /** A logout with the caller's own live refresh token ends it for good. */
  lemma LogoutEndsRefresh(run: Run, k: nat, i: nat, c: Claims)
    requires run.Valid() && RefreshFamilies.FreshMints(run) && k < i
    requires k < |run.events| && run.events[k].request.Logout? && run.replies[k] == Done
    requires ValidateAccess(run.events[k].request.bearer, run.cfg.keys, run.events[k].now) == Some(c)
    requires var r := run.events[k].request;
             var row := FindLive(run.states[k].refresh, r.ctx.tenant, Sha256(r.refreshToken), run.events[k].now);
             row.Some? && row.value.user == Subject(c)
    ensures !(RefreshFamilies.Rotates(run, i) && RefreshFamilies.Shown(run, i) == run.events[k].request.refreshToken)
  {
    var h := Sha256(run.events[k].request.refreshToken);
    LogoutAt(run, k);
    assert RefreshFamilies.Dead(run.states[k + 1].refresh, h);
    if RefreshFamilies.Rotates(run, i) && RefreshFamilies.Shown(run, i) == run.events[k].request.refreshToken {
      forall m | k + 1 <= m < i ensures !RefreshFamilies.MintsAt(run, m, h) {
        if RefreshFamilies.MintsAt(run, m, h) {
          RefreshFamilies.UnknownUntilMinted(run, k, m, h);
        }
      }
      RefreshFamilies.DeadForGood(run, k + 1, i, h);
      RefreshFamilies.AcceptedRotates(run, i);
    }
  }

  // ── Session cookies ────────────────────────────────────────────────────────

  predicate DrawsSession(r: Request, s: string) { MintOf(r).Some? && MintOf(r).value.session == s }

  /** Event `m` is a logout that gives the session up. */
  predicate GivesUp(run: Run, m: nat, s: string)
    requires run.Shaped()
  {
    m < |run.events| && run.replies[m] == Done
    && run.events[m].request.Logout? && run.events[m].request.cookie == Some(s)
  }

  /** Event `m` authorizes by the cookie of this session. */
  predicate Touches(run: Run, m: nat, s: string)
    requires run.Shaped()
  {
    m < |run.events| && run.events[m].request.Authorize? && run.events[m].request.credential == Cookie(s)
    && s in run.states[m].sessions && run.events[m].now < run.states[m].sessions[s].expiresAt
  }

  /** A session comes with the id drawn in the same step, keeps its account and its expiry, is seen when it
      authorizes, and goes by a logout or, expired, by a cleanup. */
  ghost predicate SessionMoves(run: Run, i: nat, s: string)
    requires run.Shaped() && i < |run.events|
  {
    var before, after := run.states[i].sessions, run.states[i + 1].sessions;
    && (s in after && s !in before ==> DrawsSession(run.events[i].request, s))
    && (s in before && s in after ==>
          after[s].tenant == before[s].tenant && after[s].user == before[s].user
          && after[s].expiresAt == before[s].expiresAt
          && after[s].lastSeen == if Touches(run, i, s) then run.events[i].now else before[s].lastSeen)
    && (s in before && s !in after ==>
          GivesUp(run, i, s) || (run.events[i].request.Cleanup? && before[s].expiresAt < run.events[i].now))
  }

  lemma LoginMovesSessions(run: Run, i: nat, s: string)
    requires run.Valid() && i < |run.events| && run.events[i].request.Login?
    ensures SessionMoves(run, i, s)
  {
    LoginAt(run, i);
  }

  lemma UniversalMovesSessions(run: Run, i: nat, s: string)
    requires run.Valid() && i < |run.events| && run.events[i].request.LoginUniversal?
    ensures SessionMoves(run, i, s)
  {
    LoginUniversalAt(run, i);
  }

  lemma ChallengeMovesSessions(run: Run, i: nat, s: string)
    requires run.Valid() && i < |run.events| && run.events[i].request.MfaChallenge?
    ensures SessionMoves(run, i, s)
  {
    MfaChallengeAt(run, i);
  }

  lemma AuthorizeMovesSessions(run: Run, i: nat, s: string)
    requires run.Valid() && i < |run.events| && run.events[i].request.Authorize?
    ensures SessionMoves(run, i, s)
  {
    AuthorizeAt(run, i);
  }

  lemma LogoutMovesSessions(run: Run, i: nat, s: string)
    requires run.Valid() && i < |run.events| && run.events[i].request.Logout?
    ensures SessionMoves(run, i, s)
  {
    LogoutAt(run, i);
  }

  lemma CleanupMovesSessions(run: Run, i: nat, s: string)
    requires run.Valid() && i < |run.events| && run.events[i].request.Cleanup?
    ensures SessionMoves(run, i, s)
  {
    CleanupAt(run, i);
  }

  lemma SessionsMove(run: Run, i: nat, s: string)
    requires run.Valid() && i < |run.events|
    ensures SessionMoves(run, i, s)
  {
    match run.events[i].request
    case Login(_, _, _, _) => LoginMovesSessions(run, i, s);
    case LoginUniversal(_, _, _) => UniversalMovesSessions(run, i, s);
    case MfaChallenge(_, _, _, _, _) => ChallengeMovesSessions(run, i, s);
    case Authorize(_, _, _) => AuthorizeMovesSessions(run, i, s);
    case Logout(_, _, _, _) => LogoutMovesSessions(run, i, s);
    case Cleanup => CleanupMovesSessions(run, i, s);
    case _ => Obeys(run, i);
  }

  /** New sessions carry the id drawn in the same step. */
  lemma SessionsAreDrawn(run: Run, i: nat, s: string)
    requires run.Valid() && i < |run.events| && s in run.states[i + 1].sessions && s !in run.states[i].sessions
    ensures DrawsSession(run.events[i].request, s)
  {
    SessionsMove(run, i, s);
  }

  lemma {:induction false} SessionStaysGone(run: Run, k: nat, i: nat, s: string)
    requires run.Valid() && k <= i <= |run.events| && s !in run.states[k].sessions
    requires forall m :: k <= m < i ==> !DrawsSession(run.events[m].request, s)
    ensures s !in run.states[i].sessions
  {
    if k < i {
      SessionStaysGone(run, k, i - 1, s);
      if s in run.states[i].sessions {
        SessionsAreDrawn(run, i - 1, s);
      }
    }
  }

  /** A session cookie given up at logout authorizes nothing afterwards, unless its id is drawn again. */
  lemma LogoutEndsSession(run: Run, k: nat, i: nat, s: string)
    requires run.Valid() && k < i < |run.events| && GivesUp(run, k, s)
    requires forall m :: k < m < i ==> !DrawsSession(run.events[m].request, s)
    requires run.events[i].request.Authorize? && run.events[i].request.credential == Cookie(s)
    ensures run.replies[i] == Refused(Unauthorized) && run.states[i + 1] == run.states[i]
  {
    LogoutAt(run, k);
    SessionStaysGone(run, k + 1, i, s);
    AuthorizeAt(run, i);
  }

  /** A session, once there, keeps its account and its expiry. */
  lemma SessionStands(run: Run, i: nat, s: string)
    requires run.Valid() && i < |run.events| && s in run.states[i].sessions && s in run.states[i + 1].sessions
    ensures var before, after := run.states[i].sessions[s], run.states[i + 1].sessions[s];
            after.tenant == before.tenant && after.user == before.user && after.expiresAt == before.expiresAt
  {
    SessionsMove(run, i, s);
  }

  /** Event `m` signs the account in and hands out this session with an access token that names it. */
  ghost predicate SignsIn(run: Run, m: nat, s: string, account: Owner)
    requires run.Shaped()
  {
    m < |run.events| && run.replies[m].Tokens? && run.replies[m].session == Some(s)
    && CodeFlow.IssuedFor(run.replies[m], account)
  }

  lemma LoginOpensSession(db: Db, cfg: Config, now: Time, ctx: Ctx, email: string, plain: string, mint: Issuance,
                          s: string)
    requires var after := LoginSpec(db, cfg, now, ctx, email, plain, mint).db.sessions; s in after && s !in db.sessions
    ensures var o := LoginSpec(db, cfg, now, ctx, email, plain, mint);
            o.reply.Tokens? && o.reply.session == Some(s)
            && CodeFlow.IssuedFor(o.reply, Owner(o.db.sessions[s].tenant, o.db.sessions[s].user))
  {
    var v := JudgeLogin(db, now, ctx, email, plain);
    CodeFlow.AccessTokenNames(cfg, Owner(ctx.tenant, v.user), db.users[v.user].email.plain, now,
                              SettingsOf(db.settings, ctx.tenant).accessMinutes, mint, map[]);
  }

  lemma ChallengeOpensSession(db: Db, cfg: Config, now: Time, ctx: Ctx, mfaToken: Token, totpCode: Option<string>,
                              backupCode: Option<string>, mint: Issuance, s: string)
    requires var after := MfaChallengeSpec(db, cfg, now, ctx, mfaToken, totpCode, backupCode, mint).db.sessions;
             s in after && s !in db.sessions
    ensures var o := MfaChallengeSpec(db, cfg, now, ctx, mfaToken, totpCode, backupCode, mint);
            o.reply.Tokens? && o.reply.session == Some(s)
            && CodeFlow.IssuedFor(o.reply, Owner(o.db.sessions[s].tenant, o.db.sessions[s].user))
  {
    var v := JudgeChallenge(db, cfg, now, ctx, mfaToken, totpCode, backupCode);
    CodeFlow.AccessTokenNames(cfg, v.account, db.users[v.account.user].email.plain, now,
                              SettingsOf(db.settings, v.account.tenant).accessMinutes, mint, map[]);
  }

  lemma NewSessionIsSignedIn(run: Run, i: nat, s: string)
    requires run.Valid() && i < |run.events| && s in run.states[i + 1].sessions && s !in run.states[i].sessions
    ensures SignsIn(run, i, s, Owner(run.states[i + 1].sessions[s].tenant, run.states[i + 1].sessions[s].user))
  {
    SessionsAreDrawn(run, i, s);
    var db, now := run.states[i], run.events[i].now;
    match run.events[i].request
    case Login(ctx, email, plain, mint) =>
      LoginAt(run, i);
      LoginOpensSession(db, run.cfg, now, ctx, email, plain, mint, s);
    case LoginUniversal(email, plain, mint) =>
      LoginUniversalAt(run, i);
      LoginOpensSession(db, run.cfg, now, Resolve(db.users, run.cfg.wrapKey, db.tenants, email).ctx, email, plain, mint,
                        s);
    case MfaChallenge(ctx, mfaToken, totpCode, backupCode, mint) =>
      MfaChallengeAt(run, i);
      ChallengeOpensSession(db, run.cfg, now, ctx, mfaToken, totpCode, backupCode, mint, s);
    case _ => Obeys(run, i);
  }

  /** Every session on file was handed out by an earlier sign-in of the account it stands for. */
  lemma {:induction false} SessionsHaveOrigin(run: Run, i: nat, s: string) returns (m: nat)
    requires run.Valid() && i <= |run.events| && s in run.states[i].sessions && s !in run.states[0].sessions
    ensures m < i && SignsIn(run, m, s, Owner(run.states[i].sessions[s].tenant, run.states[i].sessions[s].user))
  {
    if s in run.states[i - 1].sessions {
      m := SessionsHaveOrigin(run, i - 1, s);
      SessionStands(run, i - 1, s);
    } else {
      m := i - 1;
      NewSessionIsSignedIn(run, i - 1, s);
    }
  }
}
