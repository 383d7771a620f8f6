/** The authorization-code grant over whole runs (sections 4.1.2 and 4.1.3 of RFC 6749,
    section 4.6 of RFC 7636): token responses and authorizations agree, one to one. */
module CodeFlow {
  import opened Prelude
  import opened Uuids
  import opened Crypto
  import opened Jwt
  import opened Schema
  import opened Handlers
  import opened Runs
  import opened Conditions

  /** Event `i` is a code exchange that was answered with tokens. */
  predicate Redeems(run: Run, i: nat)
    requires run.Shaped()
  {
    i < |run.events| && run.events[i].request.Exchange? && run.replies[i].Tokens?
  }

  function RedeemedCode(run: Run, i: nat): string
    requires run.Shaped() && Redeems(run, i)
  {
    if run.events[i].request.req.code.Some? then run.events[i].request.req.code.value else ""
  }

  predicate Issues(run: Run, j: nat, code: string)
    requires run.Shaped()
  {
    j < |run.events| && run.events[j].request.Authorize? && run.replies[j] == CodeIssued(code)
  }

  /** The account the authorization at `j` was granted by. */
  ghost predicate GrantedBy(run: Run, j: nat, account: Owner)
    requires run.Shaped() && j < |run.events| && run.events[j].request.Authorize?
  {
    Identified(run.states[j], run.cfg, run.events[j].now, run.events[j].request.credential, account)
  }

  /** The client is on file in the tenant and active, and this is one of the redirect URIs it registered. */
  predicate Registered(clients: map<string, Client>, t: Uuid, clientId: string, redirectUri: string) {
    clientId in clients && clients[clientId].tenant == t && clients[clientId].active
    && redirectUri in clients[clientId].redirectUris
  }

  /** The client is on file in the tenant and active, and shows its secret if it has one. */
  predicate ClientShows(clients: map<string, Client>, t: Uuid, req: TokenRequest) {
    req.clientId in clients && clients[req.clientId].tenant == t && clients[req.clientId].active
    && (clients[req.clientId].confidential ==>
          req.clientSecret.Some? && Sha256(req.clientSecret.value) == clients[req.clientId].secretHash)
  }

  /** A stored row records the authorization it came from. */
  ghost predicate Records(run: Run, j: nat, code: string, row: AuthCode)
    requires run.Shaped()
  {
    Issues(run, j, code)
    && GrantedBy(run, j, Owner(row.tenant, row.user))
    && Registered(run.states[j].clients, row.tenant, row.clientId, row.redirectUri)
    && row.clientId == run.events[j].request.params.clientId
    && row.redirectUri == run.events[j].request.params.redirectUri
    && row.challenge == run.events[j].request.params.challenge
    && row.expiresAt == run.events[j].now + 600
  }

  /** The response at `i` is what the authorization at `j` promised: for the account that granted
      it, to the client it named at a redirect URI registered for it, within 600 seconds, on presentation
      of the verifier behind its challenge and of the client's secret, if it has one. */
  ghost predicate Agrees(run: Run, j: nat, i: nat)
    requires run.Shaped() && Redeems(run, i)
  {
    Issues(run, j, RedeemedCode(run, i))
    && var asked := run.events[j].request.params;
       var req := run.events[i].request.req;
       && req.clientId == asked.clientId
       && req.redirectUri == Some(asked.redirectUri)
       && req.verifier.Some? && asked.challenge == S256(req.verifier.value)
       && run.events[i].now <= run.events[j].now + 600
       && exists account ::
            GrantedBy(run, j, account) && IssuedFor(run.replies[i], account)
            && Registered(run.states[j].clients, account.tenant, asked.clientId, asked.redirectUri)
            && ClientShows(run.states[i].clients, account.tenant, req)
  }

  ghost predicate IssuedFor(reply: Reply, account: Owner)
    requires reply.Tokens?
  {
    var p := reply.access.payload;
    HasStr(p, "sub") && p["sub"].s == Text(account.user) && HasStr(p, "tid") && p["tid"].s == Text(account.tenant)
  }

  lemma AccessTokenNames(cfg: Config, o: Owner, email: string, now: Time, minutes: int, mint: Issuance,
                         resources: map<string, RealmAccess>)
    ensures var p := AccessFor(cfg, o, email, now, minutes, mint, resources).payload;
            HasStr(p, "sub") && p["sub"].s == Text(o.user) && HasStr(p, "tid") && p["tid"].s == Text(o.tenant)
  {}

  lemma AuthorizeStoresCode(run: Run, j: nat, code: string)
    requires run.Valid() && j < |run.events| && run.events[j].request.Authorize?
    ensures run.states[j].codes.Keys <= run.states[j + 1].codes.Keys
    ensures code in run.states[j].codes ==> run.states[j + 1].codes[code] == run.states[j].codes[code]
    ensures code in run.states[j + 1].codes && code !in run.states[j].codes
            ==> Records(run, j, code, run.states[j + 1].codes[code]) && run.states[j + 1].codes[code].usedAt.None?
  {
    AuthorizeAt(run, j);
    var db, r := run.states[j], run.events[j].request;
    var who := Identify(db, run.cfg, run.events[j].now, r.credential);
    if who.Ok? {
      IdentifiesExactly(db, run.cfg, run.events[j].now, r.credential, who.value);
    }
  }

  lemma ExchangeSpendsCode(run: Run, i: nat, code: string)
    requires run.Valid() && i < |run.events| && run.events[i].request.Exchange?
    ensures run.states[i + 1].codes.Keys == run.states[i].codes.Keys
    ensures code in run.states[i].codes
            ==> run.states[i + 1].codes[code] == run.states[i].codes[code]
                || (Redeems(run, i) && RedeemedCode(run, i) == code && run.states[i].codes[code].usedAt.None?
                    && run.states[i + 1].codes[code]
                       == run.states[i].codes[code].(usedAt := Some(run.events[i].now)))
    ensures Redeems(run, i) && RedeemedCode(run, i) == code
            ==> code in run.states[i].codes && run.states[i].codes[code].usedAt.None?
                && run.states[i + 1].codes[code].usedAt.Some?
  {
    ExchangeAt(run, i);
  }

  lemma CodeComesRecorded(run: Run, i: nat, next: nat, code: string)
    requires run.Valid() && i < |run.events| && next == i + 1 && code in run.states[next].codes
    ensures code !in run.states[i].codes ==> Records(run, i, code, run.states[next].codes[code])
    ensures code in run.states[i].codes
            ==> run.states[next].codes[code]
                == run.states[i].codes[code].(usedAt := run.states[next].codes[code].usedAt)
  {
    Obeys(run, i);
    if run.events[i].request.Authorize? {
      AuthorizeStoresCode(run, i, code);
    } else if run.events[i].request.Exchange? {
      ExchangeSpendsCode(run, i, code);
    }
  }

  /** Every code in the table was put there by an authorization, which its row records. */
  lemma {:induction false} CodesHaveOrigin(run: Run, i: nat, code: string) returns (j: nat)
    requires run.Valid() && i <= |run.events| && code in run.states[i].codes && code !in run.states[0].codes
    ensures j < i && Records(run, j, code, run.states[i].codes[code])
  {
    CodeComesRecorded(run, i - 1, i, code);
    if code in run.states[i - 1].codes {
      j := CodesHaveOrigin(run, i - 1, code);
    } else {
      j := i - 1;
    }
  }

  /** A code once in the table stays, and once used stays used. */
  lemma {:induction false} UsedForGood(run: Run, i: nat, k: nat, code: string)
    requires run.Valid() && i <= k <= |run.events| && code in run.states[i].codes
    ensures code in run.states[k].codes
    ensures run.states[i].codes[code].usedAt.Some? ==> run.states[k].codes[code].usedAt.Some?
  {
    if i < k {
      UsedForGood(run, i, k - 1, code);
      Obeys(run, k - 1);
      if run.events[k - 1].request.Authorize? {
        AuthorizeStoresCode(run, k - 1, code);
      } else if run.events[k - 1].request.Exchange? {
        ExchangeSpendsCode(run, k - 1, code);
      }
    }
  }

  lemma ExchangeChecked(run: Run, i: nat)
    requires run.Valid() && Redeems(run, i)
    ensures var req := run.events[i].request.req;
            && req.code == Some(RedeemedCode(run, i)) && RedeemedCode(run, i) in run.states[i].codes
            && var row := run.states[i].codes[RedeemedCode(run, i)];
               && req.clientId == row.clientId && req.redirectUri == Some(row.redirectUri)
               && req.verifier.Some? && row.challenge == S256(req.verifier.value)
               && row.usedAt.None? && run.events[i].now <= row.expiresAt
               && ClientShows(run.states[i].clients, row.tenant, req)
               && IssuedFor(run.replies[i], Owner(row.tenant, row.user))
  {
    ExchangeAt(run, i);
    var db, r, now := run.states[i], run.events[i].request, run.events[i].now;
    var row := ExchangeCheck(db, run.cfg, now, r.req).value;
    var client := db.clients[r.req.clientId];
    AccessTokenNames(run.cfg, Owner(row.tenant, row.user), db.users[row.user].email.plain, now,
                     if client.accessMinutes.Some? then client.accessMinutes.value else run.cfg.jwtMinutes,
                     r.mint, r.mint.resources);
  }

  /** Agreement: behind every token response stands an earlier authorization it agrees with. */
  lemma EveryResponseWasAuthorized(run: Run, i: nat) returns (j: nat)
    requires run.Valid() && run.states[0].codes == map[] && Redeems(run, i)
    ensures j < i && Agrees(run, j, i)
  {
    ExchangeChecked(run, i);
    j := CodesHaveOrigin(run, i, RedeemedCode(run, i));
  }

  /** Injectivity: no authorization answers for two token responses, however far apart. */
  lemma NoAuthorizationServesTwice(run: Run, j: nat, i: nat, k: nat)
    requires run.Valid() && Redeems(run, i) && Redeems(run, k) && i < k
    ensures RedeemedCode(run, i) != RedeemedCode(run, k)
    ensures !(Agrees(run, j, i) && Agrees(run, j, k))
  {
    var code := RedeemedCode(run, i);
    ExchangeSpendsCode(run, i, code);
    UsedForGood(run, i + 1, k, code);
    ExchangeChecked(run, k);
  }

  // ── Exactly when codes are granted and redeemed ────────────────────────────

  /** The code flow with an S256 challenge, a registered redirect URI of an active client of the tenant, and a new
      code. */
  predicate AskFits(db: Db, t: Uuid, p: AuthorizeParams, newCode: string) {
    && p.responseType == "code" && p.challengeMethod == "S256" && p.challenge != Literal("")
    && Registered(db.clients, t, p.clientId, p.redirectUri)
    && newCode !in db.codes
  }

  predicate WrongFlow(p: AuthorizeParams) {
    p.responseType != "code" || p.challengeMethod != "S256" || p.challenge == Literal("")
  }

  /** What is wrong with a request of somebody of the tenant that does not fit: the flow, a client that is not on file
      and active in the tenant, a redirect URI that it did not register, or else a code that exists. */
  function AskError(db: Db, t: Uuid, p: AuthorizeParams): AppError {
    if WrongFlow(p) then InvalidInput
    else if p.clientId !in db.clients || db.clients[p.clientId].tenant != t || !db.clients[p.clientId].active
      then NotFound
    else if p.redirectUri !in db.clients[p.clientId].redirectUris then InvalidInput
    else Internal
  }

  lemma AsksExactly(db: Db, cfg: Config, now: Time, credential: Credential, p: AuthorizeParams, newCode: string,
                    account: Owner)
    requires Identified(db, cfg, now, credential, account)
    ensures var o := AuthorizeSpec(db, cfg, now, credential, p, newCode);
            if AskFits(db, account.tenant, p, newCode) then o.reply == CodeIssued(newCode)
            else o.reply == Refused(AskError(db, account.tenant, p)) && o.db.codes == db.codes
  {
    IdentifiesExactly(db, cfg, now, credential, account);
  }

  lemma NobodyIsGranted(db: Db, cfg: Config, now: Time, credential: Credential, p: AuthorizeParams, newCode: string)
    requires forall account :: !Identified(db, cfg, now, credential, account)
    ensures var o := AuthorizeSpec(db, cfg, now, credential, p, newCode); o.reply.Refused? && o.db == db
  {
    var who := Identify(db, cfg, now, credential);
    if who.Ok? {
      IdentifiesExactly(db, cfg, now, credential, who.value);
    }
  }

  /** An authorization request is answered with the new code if and only if somebody is identified by it and asks
      as the flow demands; otherwise it is refused and no code is stored. */
  lemma AuthorizationGrantedExactly(run: Run, j: nat)
    requires run.Valid() && j < |run.events| && run.events[j].request.Authorize?
    ensures var r, db := run.events[j].request, run.states[j];
            if exists account :: GrantedBy(run, j, account) && AskFits(db, account.tenant, r.params, r.newCode)
            then run.replies[j] == CodeIssued(r.newCode)
            else run.replies[j].Refused? && run.states[j + 1].codes == db.codes
    ensures forall account :: GrantedBy(run, j, account) && run.replies[j].Refused?
              ==> run.replies[j] == Refused(AskError(run.states[j], account.tenant, run.events[j].request.params))
  {
    var r, db, now := run.events[j].request, run.states[j], run.events[j].now;
    AuthorizeAt(run, j);
    if account :| Identified(db, run.cfg, now, r.credential, account) {
      AsksExactly(db, run.cfg, now, r.credential, r.params, r.newCode, account);
      forall other | GrantedBy(run, j, other) ensures other == account {
        IdentifiesExactly(db, run.cfg, now, r.credential, other);
        IdentifiesExactly(db, run.cfg, now, r.credential, account);
      }
    } else {
      NobodyIsGranted(db, run.cfg, now, r.credential, r.params, r.newCode);
    }
  }

  /** The code is on file, unused and unexpired, and the request repeats its redirect URI and shows the verifier
      behind its challenge. */
  predicate CodeFits(codes: map<string, AuthCode>, now: Time, req: TokenRequest) {
    req.code.Some? && req.code.value in codes
    && var row := codes[req.code.value];
       && row.usedAt == None && now <= row.expiresAt && req.redirectUri == Some(row.redirectUri)
       && req.verifier.Some? && row.challenge == S256(req.verifier.value)
  }

  /** The code was issued to this client, which authenticates itself in the code's tenant. */
  predicate ClientFits(db: Db, req: TokenRequest) {
    req.code.Some? && req.code.value in db.codes && req.clientId == db.codes[req.code.value].clientId
    && ClientShows(db.clients, db.codes[req.code.value].tenant, req)
  }

  /** The code's user is on file in the code's tenant, which is in service and whose key opens the address. */
  ghost predicate OwnerFits(db: Db, cfg: Config, req: TokenRequest) {
    req.code.Some? && req.code.value in db.codes
    && var row := db.codes[req.code.value];
       && row.user in db.users && db.users[row.user].tenant == row.tenant
       && InService(db.tenants, cfg.wrapKey, row.tenant, db.users[row.user].email.key)
  }

  lemma ExchangeChecks(db: Db, cfg: Config, now: Time, req: TokenRequest)
    requires UniqueIds(db.tenants)
    ensures ExchangeCheck(db, cfg, now, req).Ok?
            <==> CodeFits(db.codes, now, req) && ClientFits(db, req) && OwnerFits(db, cfg, req)
    ensures !CodeFits(db.codes, now, req) ==> ExchangeCheck(db, cfg, now, req) == Err(InvalidInput)
    ensures CodeFits(db.codes, now, req) && !ClientFits(db, req)
            ==> ExchangeCheck(db, cfg, now, req) == Err(Unauthorized)
  {
    if CodeFits(db.codes, now, req) && ClientFits(db, req) {
      var row := db.codes[req.code.value];
      if row.user in db.users {
        TenantKeyExactly(db.tenants, cfg.wrapKey, row.tenant, db.users[row.user].email.key);
      }
    }
  }

  /** A code exchange is answered with tokens if and only if code, client and owner fit; otherwise it is refused,
      for the code first and then for the client, and changes nothing. */
  lemma ExchangeServedExactly(run: Run, i: nat)
    requires run.Valid() && i < |run.events| && run.events[i].request.Exchange? && UniqueIds(run.states[i].tenants)
    ensures var db, now, req := run.states[i], run.events[i].now, run.events[i].request.req;
            if !CodeFits(db.codes, now, req) then run.replies[i] == Refused(InvalidInput)
            else if !ClientFits(db, req) then run.replies[i] == Refused(Unauthorized)
            else if !OwnerFits(db, run.cfg, req) then run.replies[i].Refused?
            else run.replies[i].Tokens?
    ensures run.replies[i].Refused? ==> run.states[i + 1] == run.states[i]
  {
    ExchangeAt(run, i);
    ExchangeChecks(run.states[i], run.cfg, run.events[i].now, run.events[i].request.req);
  }
}
