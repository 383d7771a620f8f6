/** The login without a tenant refines the login within one. */
module UniversalLogin {
  import opened Prelude
  import opened Uuids
  import opened Crypto
  import opened Jwt
  import opened Schema
  import opened Handlers
  import opened Runs
  import opened Accounts
  import opened Credentials

  /** The tenant is active, its data key can be read, and an account of it has the address. */
  ghost predicate Knows(users: Users, wrapKey: string, t: Tenant, email: string) {
    t.active && t.dataKey.key == wrapKey
    && exists u :: u in users && users[u].tenant == t.id && users[u].lookup == Lookup(email, t.dataKey.plain)
  }

  lemma HoldsExactly(users: Users, wrapKey: string, t: Tenant, email: string)
    ensures HoldsEmail(users, wrapKey, t, email) <==> Knows(users, wrapKey, t, email)
  {
    if u :| u in users && users[u].tenant == t.id && users[u].lookup == Lookup(email, t.dataKey.plain) {
      assert HasLookup(users, u, t.id, Lookup(email, t.dataKey.plain));
    }
  }

  /** `positions` are exactly the tenants that know the address, in table order. */
  ghost predicate ArePositions(users: Users, wrapKey: string, tenants: seq<Tenant>, email: string,
                               positions: seq<nat>)
  {
    && (forall k :: 0 <= k < |positions| ==> positions[k] < |tenants|) && Increasing(positions)
    && (forall i :: 0 <= i < |tenants| ==> (Knows(users, wrapKey, tenants[i], email) <==> i in positions))
  }

  lemma OneMoreTenant(users: Users, wrapKey: string, tenants: seq<Tenant>, email: string, before: seq<nat>)
    requires tenants != [] && ArePositions(users, wrapKey, tenants[..|tenants| - 1], email, before)
    ensures ArePositions(users, wrapKey, tenants, email,
                         if Knows(users, wrapKey, tenants[|tenants| - 1], email)
                         then before + [|tenants| - 1] else before)
  {
    var n := |tenants| - 1;
    var after := if Knows(users, wrapKey, tenants[n], email) then before + [n] else before;
    forall i | 0 <= i < |tenants| ensures Knows(users, wrapKey, tenants[i], email) <==> i in after {
      if i < n {
        assert tenants[..n][i] == tenants[i];
        assert i in before <==> i in after;
      }
    }
  }

  ghost function Positions(users: Users, wrapKey: string, tenants: seq<Tenant>, email: string): (p: seq<nat>)
    ensures forall k :: 0 <= k < |p| ==> p[k] < |tenants|
  {
    if tenants == [] then []
    else Positions(users, wrapKey, tenants[..|tenants| - 1], email)
         + if Knows(users, wrapKey, tenants[|tenants| - 1], email) then [|tenants| - 1] else []
  }

  lemma {:induction false} PositionsAreExact(users: Users, wrapKey: string, tenants: seq<Tenant>, email: string)
    ensures ArePositions(users, wrapKey, tenants, email, Positions(users, wrapKey, tenants, email))
  {
    if tenants != [] {
      var before := Positions(users, wrapKey, tenants[..|tenants| - 1], email);
      PositionsAreExact(users, wrapKey, tenants[..|tenants| - 1], email);
      OneMoreTenant(users, wrapKey, tenants, email, before);
      assert before + [] == before;
    }
  }

  lemma {:induction false} HoldersAreMatches(users: Users, wrapKey: string, tenants: seq<Tenant>, email: string)
    ensures var p := Positions(users, wrapKey, tenants, email);
            Holders(users, wrapKey, tenants, email)
            == seq(|p|, k requires 0 <= k < |p| => tenants[p[k]])
  {
    if tenants != [] {
      HoldersAreMatches(users, wrapKey, tenants[..|tenants| - 1], email);
      HoldsExactly(users, wrapKey, tenants[|tenants| - 1], email);
    }
  }

  lemma SamePositions(users: Users, wrapKey: string, tenants: seq<Tenant>, email: string, p: seq<nat>, q: seq<nat>)
    requires ArePositions(users, wrapKey, tenants, email, p) && ArePositions(users, wrapKey, tenants, email, q)
    ensures p == q
  {
    forall i: nat ensures i in p <==> i in q {
      assert i in p || i in q ==> i < |tenants|;
    }
    SameIncreasing(p, q);
  }

  /** Refinement: nobody knows the address, and the login fails without a trace; several tenants do,
      and exactly those are offered, in order; one does, and state and answer are those of the
      login in that tenant under its own key. */
  lemma UniversalRefinesLogin(db: Db, cfg: Config, now: Time, email: string, plain: string, mint: Issuance,
                              positions: seq<nat>)
    requires ArePositions(db.users, cfg.wrapKey, db.tenants, email, positions)
    ensures var o := LoginUniversalSpec(db, cfg, now, email, plain, mint);
            if positions == [] then o == Refuse(db, Unauthorized)
            else if |positions| > 1 then
              o == Outcome(db, TenantChoice(seq(|positions|, k requires 0 <= k < |positions| =>
                     (db.tenants[positions[k]].slug, db.tenants[positions[k]].name))))
            else
              var t := db.tenants[positions[0]];
              o == LoginSpec(db, cfg, now, Ctx(t.id, t.dataKey.plain), email, plain, mint)
  {
    var found := Holders(db.users, cfg.wrapKey, db.tenants, email);
    HoldersAreMatches(db.users, cfg.wrapKey, db.tenants, email);
    PositionsAreExact(db.users, cfg.wrapKey, db.tenants, email);
    SamePositions(db.users, cfg.wrapKey, db.tenants, email, positions,
                  Positions(db.users, cfg.wrapKey, db.tenants, email));
    if |positions| > 1 {
      assert Labels(found) == seq(|positions|, k requires 0 <= k < |positions| =>
                                    (db.tenants[positions[k]].slug, db.tenants[positions[k]].name));
    } else if |positions| == 1 {
      assert positions[0] in positions;
      assert Knows(db.users, cfg.wrapKey, db.tenants[positions[0]], email);
    }
  }

  /** So a tenant-less login never issues anything for a tenant that does not know the address. */
  lemma IssuedOnlyWhereKnown(db: Db, cfg: Config, now: Time, email: string, plain: string, mint: Issuance)
    requires !LoginUniversalSpec(db, cfg, now, email, plain, mint).reply.Refused?
    ensures exists i :: 0 <= i < |db.tenants| && Knows(db.users, cfg.wrapKey, db.tenants[i], email)
  {
    var positions := Positions(db.users, cfg.wrapKey, db.tenants, email);
    PositionsAreExact(db.users, cfg.wrapKey, db.tenants, email);
    UniversalRefinesLogin(db, cfg, now, email, plain, mint, positions);
    assert positions[0] in positions;
  }

  /** And where exactly one does, whoever may enter there gets in with the right password, and nobody else. */
  lemma UniversalServedExactly(run: Run, i: nat, k: nat, account: Owner)
    requires run.Valid() && i < |run.events| && run.events[i].request.LoginUniversal?
    requires var r, db := run.events[i].request, run.states[i];
             && UniqueLookups(db.users) && k < |db.tenants|
             && ArePositions(db.users, run.cfg.wrapKey, db.tenants, r.email, [k])
             && var ctx := Ctx(db.tenants[k].id, db.tenants[k].dataKey.plain);
                Addressed(db.users, account, ctx, r.email)
                && !Locked(db.settings, db.attempts, ctx.tenant, Lookup(r.email, ctx.key), run.events[i].now)
    ensures var r, db := run.events[i].request, run.states[i];
            if MayEnter(db, Ctx(db.tenants[k].id, db.tenants[k].dataKey.plain), account)
               && VerifyPassword(r.plain, db.users[account.user].password)
            then if HasFactor(db.totp, account)
                 then run.replies[i] == MfaRequired(MfaFor(run.cfg, account, run.events[i].now))
                 else run.replies[i].Tokens?
            else run.replies[i].Refused?
  {
    var r, db, now := run.events[i].request, run.states[i], run.events[i].now;
    LoginUniversalAt(run, i);
    UniversalRefinesLogin(db, run.cfg, now, r.email, r.plain, r.mint, [k]);
    LoginDoes(db, run.cfg, now, Ctx(db.tenants[k].id, db.tenants[k].dataKey.plain), r.email, r.plain, r.mint, account);
  }
}
