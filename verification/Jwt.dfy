/** HS256 tokens (services/token_service.rs): the claim types, their JSON form as serde
    writes and reads it, and the validators. */
module Jwt {
  import opened Prelude

  datatype Json =
    | Str(s: string)
    | Num(n: int)
    | Strs(items: seq<string>)
    | Obj(fields: map<string, Json>)

  type Payload = map<string, Json>

  /** A payload and the secret its HMAC was made with. */
  datatype Token = Token(payload: Payload, key: string)

  /** Current signing secret, the one before it, and the expiry leeway in seconds. */
  datatype Keys = Keys(secret: string, previous: Option<string>, leeway: nat)

  datatype RealmAccess = RealmAccess(roles: seq<string>, permissions: seq<string>)

  datatype Claims = Claims(
    jti: string, sub: string, tid: string, email: string, iat: int, exp: int,
    realmAccess: RealmAccess, resourceAccess: map<string, RealmAccess>)

  datatype ClientClaims = ClientClaims(
    jti: string, sub: string, tid: string, iat: int, exp: int, scope: string, roles: seq<string>)

  datatype MfaClaims = MfaClaims(sub: string, tid: string, iat: int, exp: int, purpose: string)

  const MFA_PURPOSE := "mfa_challenge"

  // ── Serialisation ──────────────────────────────────────────────────────────

  function RealmJson(r: RealmAccess): Json {
    Obj(map["roles" := Strs(r.roles), "permissions" := Strs(r.permissions)])
  }

  function ResourcesJson(m: map<string, RealmAccess>): Json {
    Obj(map k | k in m :: RealmJson(m[k]))
  }

  function ClaimsJson(c: Claims): Payload {
    map["jti" := Str(c.jti), "sub" := Str(c.sub), "tid" := Str(c.tid), "email" := Str(c.email),
        "iat" := Num(c.iat), "exp" := Num(c.exp), "realm_access" := RealmJson(c.realmAccess)]
    + if c.resourceAccess == map[] then map[]
      else map["resource_access" := ResourcesJson(c.resourceAccess)]
  }

  function ClientClaimsJson(c: ClientClaims): Payload {
    map["jti" := Str(c.jti), "sub" := Str(c.sub), "tid" := Str(c.tid),
        "iat" := Num(c.iat), "exp" := Num(c.exp), "scope" := Str(c.scope)]
    + if c.roles == [] then map[] else map["roles" := Strs(c.roles)]
  }

  function MfaClaimsJson(c: MfaClaims): Payload {
    map["sub" := Str(c.sub), "tid" := Str(c.tid), "iat" := Num(c.iat), "exp" := Num(c.exp),
        "purpose" := Str(c.purpose)]
  }

  // ── Deserialisation: unknown fields are ignored, defaults fill the missing ones ──

  predicate HasStr(p: Payload, k: string) { k in p && p[k].Str? }

  predicate HasNum(p: Payload, k: string) { k in p && p[k].Num? }

  function ReadRealm(j: Json): Option<RealmAccess> {
    if j.Obj? && "roles" in j.fields && j.fields["roles"].Strs?
       && ("permissions" in j.fields ==> j.fields["permissions"].Strs?)
    then Some(RealmAccess(j.fields["roles"].items,
                          if "permissions" in j.fields then j.fields["permissions"].items else []))
    else None
  }

  function ReadResources(j: Json): Option<map<string, RealmAccess>> {
    if j.Obj? && forall k :: k in j.fields ==> ReadRealm(j.fields[k]).Some?
    then Some(map k | k in j.fields :: ReadRealm(j.fields[k]).value)
    else None
  }

  function ReadClaims(p: Payload): Option<Claims> {
    var realm := if "realm_access" in p then ReadRealm(p["realm_access"]) else Some(RealmAccess([], []));
    var resources := if "resource_access" in p then ReadResources(p["resource_access"]) else Some(map[]);
    if HasStr(p, "jti") && HasStr(p, "sub") && HasStr(p, "tid") && HasStr(p, "email")
       && HasNum(p, "iat") && HasNum(p, "exp") && realm.Some? && resources.Some?
    then Some(Claims(p["jti"].s, p["sub"].s, p["tid"].s, p["email"].s, p["iat"].n, p["exp"].n,
                     realm.value, resources.value))
    else None
  }

  function ReadMfaClaims(p: Payload): Option<MfaClaims> {
    if HasStr(p, "sub") && HasStr(p, "tid") && HasNum(p, "iat") && HasNum(p, "exp") && HasStr(p, "purpose")
    then Some(MfaClaims(p["sub"].s, p["tid"].s, p["iat"].n, p["exp"].n, p["purpose"].s))
    else None
  }

  // ── Validation ─────────────────────────────────────────────────────────────

  /** The library's `decode` with its default validation: signature, then expiry with leeway. */
  predicate Genuine(t: Token, key: string, leeway: nat, now: int) {
    t.key == key && HasNum(t.payload, "exp") && t.payload["exp"].n >= now - leeway
  }

  function DecodeAccess(t: Token, key: string, leeway: nat, now: int): Option<Claims> {
    if Genuine(t, key, leeway, now) then ReadClaims(t.payload) else None
  }

  function DecodeMfa(t: Token, key: string, leeway: nat, now: int): Option<MfaClaims> {
    if Genuine(t, key, leeway, now) then ReadMfaClaims(t.payload) else None
  }

  function ValidateAccess(t: Token, keys: Keys, now: int): Option<Claims> {
    var current := DecodeAccess(t, keys.secret, keys.leeway, now);
    if current.Some? then current
    else if keys.previous.Some? then DecodeAccess(t, keys.previous.value, keys.leeway, now)
    else None
  }

  function VerifyMfa(t: Token, keys: Keys, now: int): Option<MfaClaims> {
    var current := DecodeMfa(t, keys.secret, keys.leeway, now);
    var claims := if current.None? && keys.previous.Some?
                  then DecodeMfa(t, keys.previous.value, keys.leeway, now) else current;
    if claims.Some? && claims.value.purpose == MFA_PURPOSE then claims else None
  }

  // ── Generation ─────────────────────────────────────────────────────────────

  function AccessToken(c: Claims, keys: Keys): Token { Token(ClaimsJson(c), keys.secret) }

  function ClientToken(c: ClientClaims, keys: Keys): Token { Token(ClientClaimsJson(c), keys.secret) }

  function MfaToken(c: MfaClaims, keys: Keys): Token { Token(MfaClaimsJson(c), keys.secret) }

  // ── Theorems ───────────────────────────────────────────────────────────────

  lemma ReadsBackRealm(r: RealmAccess)
    ensures ReadRealm(RealmJson(r)) == Some(r)
  {}

  lemma ReadsBackResources(m: map<string, RealmAccess>)
    ensures ReadResources(ResourcesJson(m)) == Some(m)
  {
    var o := ResourcesJson(m);
    forall k | k in o.fields ensures ReadRealm(o.fields[k]) == Some(m[k]) {
      ReadsBackRealm(m[k]);
    }
    assert ReadResources(o).value == m;
  }

  lemma WritesBaseClaims(c: Claims)
    ensures var p := ClaimsJson(c);
            && HasStr(p, "jti") && p["jti"].s == c.jti && HasStr(p, "sub") && p["sub"].s == c.sub
            && HasStr(p, "tid") && p["tid"].s == c.tid && HasStr(p, "email") && p["email"].s == c.email
            && HasNum(p, "iat") && p["iat"].n == c.iat && HasNum(p, "exp") && p["exp"].n == c.exp
  {}

  lemma WritesAccessClaims(c: Claims)
    ensures var p := ClaimsJson(c);
            && "realm_access" in p && p["realm_access"] == RealmJson(c.realmAccess)
            && ("resource_access" in p <==> c.resourceAccess != map[])
            && ("resource_access" in p ==> p["resource_access"] == ResourcesJson(c.resourceAccess))
  {}

  /** serde's reader undoes its writer for access claims, whether or not the
      per-client map is empty (and so omitted). */
  lemma ReadsBackClaims(c: Claims)
    ensures ReadClaims(ClaimsJson(c)) == Some(c)
  {
    WritesBaseClaims(c);
    WritesAccessClaims(c);
    ReadsBackRealm(c.realmAccess);
    ReadsBackResources(c.resourceAccess);
  }

  /** An access token is valid exactly until its own `exp` plus the leeway, while its secret is
      the current or the previous one, and validation returns the claims it was made from. */
  lemma AccessTokenValidity(c: Claims, signer: Keys, keys: Keys, now: int)
    ensures var r := ValidateAccess(AccessToken(c, signer), keys, now);
            if (signer.secret == keys.secret || keys.previous == Some(signer.secret)) && now <= c.exp + keys.leeway
            then r == Some(c) else r == None
  {
    ReadsBackClaims(c);
  }

  lemma MfaTokenValidity(c: MfaClaims, signer: Keys, keys: Keys, now: int)
    ensures var r := VerifyMfa(MfaToken(c, signer), keys, now);
            if (signer.secret == keys.secret || keys.previous == Some(signer.secret))
               && now <= c.exp + keys.leeway && c.purpose == MFA_PURPOSE
            then r == Some(c) else r == None
  {
    assert ReadMfaClaims(MfaClaimsJson(c)) == Some(c);
  }

  /** No validator accepts a token of another kind, under any secrets and at any time. */
  lemma KindsNeverMix(a: Claims, c: ClientClaims, m: MfaClaims, signer: Keys, keys: Keys, now: int)
    ensures ValidateAccess(ClientToken(c, signer), keys, now) == None
    ensures ValidateAccess(MfaToken(m, signer), keys, now) == None
    ensures VerifyMfa(AccessToken(a, signer), keys, now) == None
    ensures VerifyMfa(ClientToken(c, signer), keys, now) == None
  {
    OnlyAccessClaimsNameEmail(c, m);
    OnlyMfaClaimsNamePurpose(a, c);
  }

  lemma OnlyAccessClaimsNameEmail(c: ClientClaims, m: MfaClaims)
    ensures ReadClaims(ClientClaimsJson(c)) == None && ReadClaims(MfaClaimsJson(m)) == None
  {
    assert "email" !in ClientClaimsJson(c);
    assert "email" !in MfaClaimsJson(m);
  }

  lemma OnlyMfaClaimsNamePurpose(a: Claims, c: ClientClaims)
    ensures ReadMfaClaims(ClaimsJson(a)) == None && ReadMfaClaims(ClientClaimsJson(c)) == None
  {
    assert "purpose" !in ClaimsJson(a);
    assert "purpose" !in ClientClaimsJson(c);
  }

  /** The secrets in force after each rotation: epoch `e` signs with `secrets[e]` and still
      accepts `secrets[e - 1]`. */
  function EpochKeys(secrets: seq<string>, e: nat, leeway: nat): Keys
    requires e < |secrets|
  {
    Keys(secrets[e], if e == 0 then None else Some(secrets[e - 1]), leeway)
  }

  /** A signature made in epoch `made` survives exactly one rotation: with distinct secrets it is
      accepted in epochs `made` and `made + 1`, and in no other, before or after. */
  lemma SurvivesOneRotation(c: Claims, secrets: seq<string>, made: nat, seen: nat, leeway: nat, now: int)
    requires made < |secrets| && seen < |secrets|
    requires forall i, j :: 0 <= i < j < |secrets| ==> secrets[i] != secrets[j]
    requires now <= c.exp + leeway
    ensures ValidateAccess(AccessToken(c, EpochKeys(secrets, made, leeway)), EpochKeys(secrets, seen, leeway),
                           now).Some?
            <==> seen == made || seen == made + 1
  {
    AccessTokenValidity(c, EpochKeys(secrets, made, leeway), EpochKeys(secrets, seen, leeway), now);
  }
}
