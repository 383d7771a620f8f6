/** The tables of refresh tokens and revoked ids, row by row over whole runs: exactly when a token ends, and exactly
    when an id is revoked. */
module TokenTables {
  import opened Prelude
  import opened Uuids
  import opened AdminAuth
  import opened Crypto
  import opened Jwt
  import opened Schema
  import opened Handlers
  import opened Runs
  import opened Conditions
  import opened Accounts
  import opened Answers

  // ── Who is served ──────────────────────────────────────────────────────────

  /** Somebody of the tenant, or of the master tenant, is signed in by the token. */
  ghost predicate SomebodyIn(db: Db, cfg: Config, now: Time, ctx: Ctx, t: Token) {
    exists u :: BearerIn(db, cfg, now, t, Owner(ctx.tenant, u))
  }

  lemma SomebodyExactly(db: Db, cfg: Config, now: Time, ctx: Ctx, t: Token)
    ensures Authenticate(db, cfg, now, ctx, t).Ok? <==> SomebodyIn(db, cfg, now, ctx, t)
  {
    var who := Authenticate(db, cfg, now, ctx, t);
    if who.Ok? {
      AuthenticatesExactly(db, cfg, now, ctx, t, Subject(who.value));
    }
    if u :| BearerIn(db, cfg, now, t, Owner(ctx.tenant, u)) {
      AuthenticatesExactly(db, cfg, now, ctx, t, u);
    }
  }

  /** A logout succeeds if and only if somebody is signed in, and then drops the session of its cookie and no other;
      otherwise it is refused and changes nothing. */
  lemma LogoutServedExactly(run: Run, i: nat)
    requires run.Valid() && i < |run.events| && run.events[i].request.Logout?
    ensures var r, db, after := run.events[i].request, run.states[i], run.states[i + 1];
            if SomebodyIn(db, run.cfg, run.events[i].now, r.ctx, r.bearer)
            then run.replies[i] == Done
                 && (forall s :: s in after.sessions <==> s in db.sessions && r.cookie != Some(s))
                 && forall s :: s in after.sessions ==> after.sessions[s] == db.sessions[s]
            else run.replies[i].Refused? && after == db
  {
    var r := run.events[i].request;
    LogoutAt(run, i);
    SomebodyExactly(run.states[i], run.cfg, run.events[i].now, r.ctx, r.bearer);
  }

  /** A revocation of all tokens succeeds if and only if somebody is signed in. */
  lemma RevokeAllServedExactly(run: Run, i: nat)
    requires run.Valid() && i < |run.events| && run.events[i].request.RevokeAll?
    ensures var r, db := run.events[i].request, run.states[i];
            if SomebodyIn(db, run.cfg, run.events[i].now, r.ctx, r.bearer) then run.replies[i] == Done
            else run.replies[i].Refused? && run.states[i + 1] == db
  {
    var r := run.events[i].request;
    RevokeAllAt(run, i);
    SomebodyExactly(run.states[i], run.cfg, run.events[i].now, r.ctx, r.bearer);
  }

  /** The revocation endpoint answers everybody alike. */
  lemma OauthRevokeTellsNothing(run: Run, i: nat)
    requires run.Valid() && i < |run.events| && run.events[i].request.OauthRevoke?
    ensures run.replies[i] == Done
  {
    OauthRevokeAt(run, i);
  }

  /** Introspection answers whoever shows the admin key, if there is one, with the claims of a valid access token. */
  lemma IntrospectedExactly(run: Run, i: nat)
    requires run.Valid() && i < |run.events| && run.events[i].request.Introspect?
    ensures var r, shown := run.events[i].request, run.events[i].request.headers.adminKey;
            run.states[i + 1] == run.states[i]
            && run.replies[i]
               == if run.cfg.adminKey.None? then Refused(NotFound)
                  else if run.cfg.adminKey.value != (if shown.Some? then shown.value else "") then Refused(Unauthorized)
                  else if r.presented.OtherText? then TokenInactive
                  else match ValidateAccess(r.presented.jwt, run.cfg.keys, run.events[i].now)
                       case None => TokenInactive
                       case Some(claims) => TokenActive(claims)
  {
    IntrospectAt(run, i);
  }

  // ── Refresh tokens ─────────────────────────────────────────────────────────

  /** The request ends the unrevoked token of this row: it is shown at a refresh that is accepted, given up live by
      its user at logout, revoked by its user, or all tokens of its user are, by the user or by a reset. */
  predicate Ends(db: Db, cfg: Config, now: Time, r: Request, h: Digest)
    requires h in db.refresh
  {
    var row := db.refresh[h];
    match r
    case Refresh(ctx, token, _) => h == Sha256(token) && RefreshFits(db, ctx, token, now)
    case Logout(ctx, bearer, _, token) =>
      h == Sha256(token) && row.tenant == ctx.tenant && now < row.expiresAt
      && BearerIn(db, cfg, now, bearer, Owner(ctx.tenant, row.user))
    case OauthRevoke(bearer, presented, _) =>
      var caller := ValidateAccess(bearer, cfg.keys, now);
      && presented.OtherText? && h == Sha256(presented.text)
      && caller.Some? && Parse(caller.value.sub) == Some(row.user)
    case RevokeAll(ctx, bearer) =>
      row.tenant == ctx.tenant && BearerIn(db, cfg, now, bearer, Owner(ctx.tenant, row.user))
    case ResetPassword(ctx, _, _, _) =>
      row.tenant == ctx.tenant && Resets(db, now, r, Owner(ctx.tenant, row.user))
    case _ => false
  }

  /** What is left of the row: nothing if it has expired and is cleaned up, else the same row, revoked now if the
      request ends it and as it was if not. */
  ghost predicate RowMoves(db: Db, cfg: Config, now: Time, r: Request, after: RefreshTable, h: Digest)
    requires h in db.refresh
  {
    if r.Cleanup? && db.refresh[h].expiresAt < now then h !in after
    else h in after
         && after[h] == if db.refresh[h].revokedAt.None? && Ends(db, cfg, now, r, h)
                        then db.refresh[h].(revokedAt := Some(now)) else db.refresh[h]
  }

  lemma LogoutEnds(db: Db, cfg: Config, now: Time, r: Request, h: Digest)
    requires r.Logout? && h in db.refresh
    ensures RowMoves(db, cfg, now, r, LogoutSpec(db, cfg, now, r.ctx, r.bearer, r.cookie, r.refreshToken).db.refresh, h)
  {
    AuthenticatesExactly(db, cfg, now, r.ctx, r.bearer, db.refresh[h].user);
  }

  /** The request is from this caller and shows an access token of its own, without a hint. */
  predicate ShowsAccess(cfg: Config, now: Time, r: Request, caller: Option<Claims>) {
    r.OauthRevoke? && caller.Some? && !r.hintRefresh && OwnAccessToken(cfg, now, caller.value, r.presented)
  }

  lemma NoRefreshShown(db: Db, cfg: Config, now: Time, r: Request, caller: Option<Claims>)
    requires r.OauthRevoke? && caller == ValidateAccess(r.bearer, cfg.keys, now)
    requires caller.None? || ShowsAccess(cfg, now, r, caller)
    ensures OauthRevokeSpec(db, cfg, now, r.bearer, r.presented, r.hintRefresh).db.refresh == db.refresh
  {}

  lemma RefreshShown(db: Db, cfg: Config, now: Time, r: Request, caller: Option<Claims>)
    requires r.OauthRevoke? && caller == ValidateAccess(r.bearer, cfg.keys, now)
    requires caller.Some? && !ShowsAccess(cfg, now, r, caller)
    ensures OauthRevokeSpec(db, cfg, now, r.bearer, r.presented, r.hintRefresh).db.refresh
            == RevokeOwnRefresh(db.refresh, now, caller.value, r.presented)
  {}

  lemma OauthIdTable(db: Db, cfg: Config, now: Time, r: Request, caller: Option<Claims>)
    requires r.OauthRevoke? && caller == ValidateAccess(r.bearer, cfg.keys, now)
    ensures OauthRevokeSpec(db, cfg, now, r.bearer, r.presented, r.hintRefresh).db.jtis
            == if ShowsAccess(cfg, now, r, caller)
               then var c := ValidateAccess(r.presented.jwt, cfg.keys, now).value; RevokeJti(db.jtis, c.jti, c.exp)
               else db.jtis
  {}

  lemma OwnRefreshEnds(db: Db, cfg: Config, now: Time, r: Request, h: Digest, caller: Option<Claims>)
    requires r.OauthRevoke? && h in db.refresh && caller == ValidateAccess(r.bearer, cfg.keys, now)
    ensures RowMoves(db, cfg, now, r,
                     if caller.None? || ShowsAccess(cfg, now, r, caller) then db.refresh
                     else RevokeOwnRefresh(db.refresh, now, caller.value, r.presented), h)
  {}

  lemma OauthRevokeEnds(db: Db, cfg: Config, now: Time, r: Request, h: Digest)
    requires r.OauthRevoke? && h in db.refresh
    ensures RowMoves(db, cfg, now, r, OauthRevokeSpec(db, cfg, now, r.bearer, r.presented, r.hintRefresh).db.refresh, h)
  {
    var caller := ValidateAccess(r.bearer, cfg.keys, now);
    OwnRefreshEnds(db, cfg, now, r, h, caller);
    if caller.None? || ShowsAccess(cfg, now, r, caller) {
      NoRefreshShown(db, cfg, now, r, caller);
    } else {
      RefreshShown(db, cfg, now, r, caller);
    }
  }

  lemma RevokeAllEnds(db: Db, cfg: Config, now: Time, r: Request, h: Digest)
    requires r.RevokeAll? && h in db.refresh
    ensures RowMoves(db, cfg, now, r, RevokeAllSpec(db, cfg, now, r.ctx, r.bearer).db.refresh, h)
  {
    AuthenticatesExactly(db, cfg, now, r.ctx, r.bearer, db.refresh[h].user);
  }

  lemma ResetEnds(db: Db, cfg: Config, now: Time, r: Request, h: Digest)
    requires r.ResetPassword? && h in db.refresh
    ensures RowMoves(db, cfg, now, r,
                     ResetPasswordSpec(db, now, r.ctx, r.token, r.password, r.formatOk).db.refresh, h)
  {
    ResetChecks(db, now, r, Owner(r.ctx.tenant, db.refresh[h].user));
  }

  lemma RefreshedTable(db: Db, cfg: Config, now: Time, r: Request)
    requires r.Refresh?
    ensures RefreshSpec(db, cfg, now, r.ctx, r.token, r.mint).db.refresh
            == match RefreshAccount(db, r.ctx, r.token, now)
               case Err(_) => db.refresh
               case Ok(owner) =>
                 db.refresh[Sha256(r.token) := Revoked(db.refresh[Sha256(r.token)], now)]
                           [Sha256(r.mint.refresh) := NewRefresh(owner, now, cfg.refreshDays)]
  {}

  lemma RefreshedExactly(db: Db, ctx: Ctx, token: string, now: Time)
    ensures RefreshAccount(db, ctx, token, now).Ok? <==> RefreshFits(db, ctx, token, now)
  {}

  lemma RefreshEnds(db: Db, cfg: Config, now: Time, r: Request, h: Digest)
    requires r.Refresh? && h in db.refresh && h != Sha256(r.mint.refresh)
    ensures RowMoves(db, cfg, now, r, RefreshSpec(db, cfg, now, r.ctx, r.token, r.mint).db.refresh, h)
  {
    RefreshedTable(db, cfg, now, r);
    RefreshedExactly(db, r.ctx, r.token, now);
  }

  lemma IssuersMoveNothing(run: Run, i: nat, h: Digest)
    requires run.Valid() && i < |run.events| && h in run.states[i].refresh && !MintsHash(run.events[i].request, h)
    requires MintOf(run.events[i].request).Some? && !run.events[i].request.Refresh?
    ensures h in run.states[i + 1].refresh && run.states[i + 1].refresh[h] == run.states[i].refresh[h]
  {
    match run.events[i].request
    case Login(_, _, _, _) => LoginAt(run, i);
    case LoginUniversal(_, _, _) => LoginUniversalAt(run, i);
    case Exchange(_, _) => ExchangeAt(run, i);
    case MfaChallenge(_, _, _, _, _) => MfaChallengeAt(run, i);
  }

  lemma RevocationsEnd(run: Run, i: nat, h: Digest)
    requires run.Valid() && i < |run.events| && h in run.states[i].refresh
    requires var r := run.events[i].request; r.Logout? || r.OauthRevoke? || r.RevokeAll? || r.ResetPassword?
    ensures RowMoves(run.states[i], run.cfg, run.events[i].now, run.events[i].request, run.states[i + 1].refresh, h)
  {
    var db, now, r := run.states[i], run.events[i].now, run.events[i].request;
    match r
    case Logout(_, _, _, _) =>
      LogoutAt(run, i);
      LogoutEnds(db, run.cfg, now, r, h);
    case OauthRevoke(_, _, _) =>
      OauthRevokeAt(run, i);
      OauthRevokeEnds(db, run.cfg, now, r, h);
    case RevokeAll(_, _) =>
      RevokeAllAt(run, i);
      RevokeAllEnds(db, run.cfg, now, r, h);
    case ResetPassword(_, _, _, _) =>
      ResetPasswordAt(run, i);
      ResetEnds(db, run.cfg, now, r, h);
  }

  /** In every step of every run, a token that is not drawn again moves exactly so. */
  lemma TokensEndExactly(run: Run, i: nat, h: Digest)
    requires run.Valid() && i < |run.events| && h in run.states[i].refresh && !MintsHash(run.events[i].request, h)
    ensures RowMoves(run.states[i], run.cfg, run.events[i].now, run.events[i].request, run.states[i + 1].refresh, h)
  {
    var r := run.events[i].request;
    if r.Refresh? {
      RefreshAt(run, i);
      RefreshEnds(run.states[i], run.cfg, run.events[i].now, r, h);
    } else if r.Logout? || r.OauthRevoke? || r.RevokeAll? || r.ResetPassword? {
      RevocationsEnd(run, i, h);
    } else if r.Cleanup? {
      CleanupAt(run, i);
    } else if MintOf(r).Some? {
      IssuersMoveNothing(run, i, h);
    } else {
      Obeys(run, i);
    }
  }

  /** So a served revocation of all tokens leaves the caller no unrevoked token in the tenant. */
  lemma RevokeAllLeavesNone(run: Run, i: nat, u: Uuid, h: Digest)
    requires run.Valid() && i < |run.events| && run.events[i].request.RevokeAll?
    requires var r := run.events[i].request;
             BearerIn(run.states[i], run.cfg, run.events[i].now, r.bearer, Owner(r.ctx.tenant, u))
    requires h in run.states[i + 1].refresh
             && run.states[i + 1].refresh[h].tenant == run.events[i].request.ctx.tenant
             && run.states[i + 1].refresh[h].user == u
    ensures run.replies[i] == Done && run.states[i + 1].refresh[h].revokedAt.Some?
  {
    RevokeAllServedExactly(run, i);
    Obeys(run, i);
    TokensEndExactly(run, i, h);
  }

  // ── Revoked ids ────────────────────────────────────────────────────────────

  /** The request revokes the id: its bearer logs out, or its holder shows it for revocation. */
  ghost predicate RevokesId(db: Db, cfg: Config, now: Time, r: Request, jti: string) {
    match r
    case Logout(ctx, bearer, _, _) =>
      SomebodyIn(db, cfg, now, ctx, bearer) && ValidateAccess(bearer, cfg.keys, now).Some?
      && ValidateAccess(bearer, cfg.keys, now).value.jti == jti
    case OauthRevoke(bearer, presented, hint) =>
      && !hint && presented.JwtText?
      && var caller, shown := ValidateAccess(bearer, cfg.keys, now), ValidateAccess(presented.jwt, cfg.keys, now);
         caller.Some? && shown.Some? && shown.value.sub == caller.value.sub && shown.value.jti == jti
    case _ => false
  }

  /** The expiry stored with it: the token's own, but none if a token of the previous secret logs out. */
  function StoredExpiry(cfg: Config, now: Time, r: Request): Time {
    match r
    case Logout(_, bearer, _, _) =>
      var claims := ValidateAccess(bearer, cfg.keys, now);
      if claims.Some? && bearer.key == cfg.keys.secret then claims.value.exp else 0
    case OauthRevoke(_, presented, _) =>
      if presented.JwtText? && ValidateAccess(presented.jwt, cfg.keys, now).Some?
      then ValidateAccess(presented.jwt, cfg.keys, now).value.exp else 0
    case _ => 0
  }

  /** What the table of ids says of one of them after the request. */
  ghost predicate IdMoves(db: Db, cfg: Config, now: Time, r: Request, after: JtiTable, jti: string) {
    && (jti in after <==> jti in db.jtis || RevokesId(db, cfg, now, r, jti))
    && (jti in after ==> after[jti] == if jti in db.jtis then db.jtis[jti] else StoredExpiry(cfg, now, r))
  }

  lemma LogoutStores(cfg: Config, now: Time, r: Request, claims: Claims)
    requires r.Logout? && ValidateAccess(r.bearer, cfg.keys, now) == Some(claims)
    ensures LogoutExpiry(cfg, now, r.bearer) == StoredExpiry(cfg, now, r)
  {}

  lemma LogoutRevokes(db: Db, cfg: Config, now: Time, r: Request, jti: string)
    requires r.Logout?
    ensures IdMoves(db, cfg, now, r, LogoutSpec(db, cfg, now, r.ctx, r.bearer, r.cookie, r.refreshToken).db.jtis, jti)
  {
    SomebodyExactly(db, cfg, now, r.ctx, r.bearer);
    var who := Authenticate(db, cfg, now, r.ctx, r.bearer);
    if who.Ok? {
      AuthenticatedClaims(db, cfg, now, r.ctx, r.bearer);
      LogoutStores(cfg, now, r, who.value);
      LoggedOutIds(db, cfg, now, r, who.value);
    }
  }

  lemma AuthenticatedClaims(db: Db, cfg: Config, now: Time, ctx: Ctx, t: Token)
    requires Authenticate(db, cfg, now, ctx, t).Ok?
    ensures ValidateAccess(t, cfg.keys, now) == Some(Authenticate(db, cfg, now, ctx, t).value)
  {}

  lemma LoggedOutIds(db: Db, cfg: Config, now: Time, r: Request, claims: Claims)
    requires r.Logout? && Authenticate(db, cfg, now, r.ctx, r.bearer) == Ok(claims)
    ensures LogoutSpec(db, cfg, now, r.ctx, r.bearer, r.cookie, r.refreshToken).db.jtis
            == RevokeJti(db.jtis, claims.jti, LogoutExpiry(cfg, now, r.bearer))
  {}

  lemma OwnAccessRevokes(db: Db, cfg: Config, now: Time, r: Request, jti: string, caller: Option<Claims>)
    requires r.OauthRevoke? && caller == ValidateAccess(r.bearer, cfg.keys, now)
    ensures IdMoves(db, cfg, now, r,
                    if ShowsAccess(cfg, now, r, caller)
                    then var c := ValidateAccess(r.presented.jwt, cfg.keys, now).value; RevokeJti(db.jtis, c.jti, c.exp)
                    else db.jtis, jti)
  {}

  lemma OauthRevokeRevokes(db: Db, cfg: Config, now: Time, r: Request, jti: string)
    requires r.OauthRevoke?
    ensures IdMoves(db, cfg, now, r, OauthRevokeSpec(db, cfg, now, r.bearer, r.presented, r.hintRefresh).db.jtis, jti)
  {
    var caller := ValidateAccess(r.bearer, cfg.keys, now);
    OauthIdTable(db, cfg, now, r, caller);
    OwnAccessRevokes(db, cfg, now, r, jti, caller);
  }

  /** An id is on file after a step exactly if it was, and is not cleaned up expired, or the step revokes it; it keeps
      the expiry it was stored with. */
  lemma IdsMoveExactly(run: Run, i: nat, jti: string)
    requires run.Valid() && i < |run.events|
    ensures var db, now, r := run.states[i], run.events[i].now, run.events[i].request;
            var after := run.states[i + 1].jtis;
            && (jti in after
                <==> || (jti in db.jtis && !(r.Cleanup? && db.jtis[jti] < now))
                     || RevokesId(db, run.cfg, now, r, jti))
            && (jti in after ==> after[jti] == if jti in db.jtis then db.jtis[jti] else StoredExpiry(run.cfg, now, r))
  {
    var db, now, r := run.states[i], run.events[i].now, run.events[i].request;
    match r
    case Logout(_, _, _, _) =>
      LogoutAt(run, i);
      LogoutRevokes(db, run.cfg, now, r, jti);
    case OauthRevoke(_, _, _) =>
      OauthRevokeAt(run, i);
      OauthRevokeRevokes(db, run.cfg, now, r, jti);
    case Cleanup => CleanupAt(run, i);
    case _ => Obeys(run, i);
  }
}
