/** The tenant middleware and its cache of decrypted data keys (middleware/tenant.rs, state.rs). */
module TenantKeyCache {
  import opened Prelude
  import opened Uuids
  import opened Crypto
  import opened Schema
  import opened Handlers
  import Conditions

  const KEY_TTL := 300

  datatype Entry = Entry(key: string, expiresAt: Time) {
    predicate IsValid(now: Time) { expiresAt > now }
  }

  type Cache = map<Uuid, Entry>

  /** The headers that name a tenant. */
  datatype Naming = Naming(id: Option<string>, slug: Option<string>)

  function FindBySlug(tenants: seq<Tenant>, slug: string): Option<Tenant> {
    if tenants == [] then None
    else if tenants[0].slug == slug then Some(tenants[0])
    else FindBySlug(tenants[1..], slug)
  }

  function Active(t: Option<Tenant>): Result<Tenant, AppError> {
    if t.None? then Err(NotFound) else if !t.value.active then Err(Unauthorized) else Ok(t.value)
  }

  /** An id header that parses wins over the slug header. */
  function Named(tenants: seq<Tenant>, n: Naming): Result<Tenant, AppError> {
    if n.id.Some? && Parse(n.id.value).Some? then Active(FindTenant(tenants, Parse(n.id.value).value))
    else if n.slug.Some? then Active(FindBySlug(tenants, n.slug.value))
    else Err(Unauthorized)
  }

  /** The answer without any cache. */
  function Direct(tenants: seq<Tenant>, wrapKey: string, n: Naming): Result<Ctx, AppError> {
    match Named(tenants, n)
    case Err(e) => Err(e)
    case Ok(t) =>
      match Open(t.dataKey, wrapKey)
      case None => Err(CryptoError)
      case Some(key) => Ok(Ctx(t.id, key))
  }

  class Middleware {
    var tenants: seq<Tenant>
    var cache: Cache

    constructor (rows: seq<Tenant>)
      ensures tenants == rows && cache == map[]
    {
      tenants, cache := rows, map[];
    }

    method Answer(wrapKey: string, now: Time, n: Naming) returns (r: Result<Ctx, AppError>)
      modifies this`cache
      ensures r == Cached(tenants, old(cache), wrapKey, now, n)
      ensures cache == CacheAfter(tenants, old(cache), wrapKey, now, n)
    {
      var record := Named(tenants, n);
      if record.Err? {
        return Err(record.error);
      }
      var id := record.value.id;
      if id in cache && cache[id].IsValid(now) {
        return Ok(Ctx(id, cache[id].key));
      }
      cache := cache - {id};
      var key := Open(record.value.dataKey, wrapKey);
      if key.None? {
        return Err(CryptoError);
      }
      cache := cache[id := Entry(key.value, now + KEY_TTL)];
      return Ok(Ctx(id, key.value));
    }
  }

  function Cached(tenants: seq<Tenant>, cache: Cache, wrapKey: string, now: Time, n: Naming): Result<Ctx, AppError> {
    match Named(tenants, n)
    case Err(e) => Err(e)
    case Ok(t) =>
      if t.id in cache && cache[t.id].IsValid(now) then Ok(Ctx(t.id, cache[t.id].key))
      else Direct(tenants, wrapKey, n)
  }

  function CacheAfter(tenants: seq<Tenant>, cache: Cache, wrapKey: string, now: Time, n: Naming): Cache {
    match Named(tenants, n)
    case Err(_) => cache
    case Ok(t) =>
      if t.id in cache && cache[t.id].IsValid(now) then cache
      else if Open(t.dataKey, wrapKey).None? then cache - {t.id}
      else cache[t.id := Entry(t.dataKey.plain, now + KEY_TTL)]
  }

  // ── Runs in which the tenants table may change in any way ──────────────────

  datatype Event = Ask(now: Time, naming: Naming) | Write(now: Time, rows: seq<Tenant>)

  function TableAt(first: seq<Tenant>, events: seq<Event>, i: nat): seq<Tenant>
    requires i <= |events|
  {
    if i == 0 then first
    else if events[i - 1].Write? then events[i - 1].rows
    else TableAt(first, events, i - 1)
  }

  function CacheAt(first: seq<Tenant>, wrapKey: string, events: seq<Event>, i: nat): Cache
    requires i <= |events|
  {
    if i == 0 then map[]
    else
      var before := CacheAt(first, wrapKey, events, i - 1);
      match events[i - 1]
      case Ask(now, n) => CacheAfter(TableAt(first, events, i - 1), before, wrapKey, now, n)
      case Write(_, _) => before
  }

  function AnswerAt(first: seq<Tenant>, wrapKey: string, events: seq<Event>, i: nat): Result<Ctx, AppError>
    requires i < |events| && events[i].Ask?
  {
    Cached(TableAt(first, events, i), CacheAt(first, wrapKey, events, i), wrapKey, events[i].now, events[i].naming)
  }

  predicate InOrder(events: seq<Event>) {
    forall i, k :: 0 <= i <= k < |events| ==> events[i].now <= events[k].now
  }

  lemma {:induction false} FoundHasId(tenants: seq<Tenant>, id: Uuid)
    requires FindTenant(tenants, id).Some?
    ensures FindTenant(tenants, id).value.id == id
  {
    if tenants[0].id != id {
      FoundHasId(tenants[1..], id);
    }
  }

  lemma {:induction false} FoundBySlug(tenants: seq<Tenant>, slug: string)
    requires UniqueIds(tenants) && FindBySlug(tenants, slug).Some?
    ensures FindTenant(tenants, FindBySlug(tenants, slug).value.id) == FindBySlug(tenants, slug)
    ensures FindBySlug(tenants, slug).value in tenants
  {
    if tenants[0].slug != slug {
      assert forall i, k :: 0 <= i < k < |tenants[1..]| ==> tenants[1..][i].id != tenants[1..][k].id;
      FoundBySlug(tenants[1..], slug);
      var t := FindBySlug(tenants[1..], slug).value;
      var k :| 0 <= k < |tenants[1..]| && tenants[1..][k] == t;
      assert tenants[k + 1].id != tenants[0].id;
    }
  }

  /** Whoever is named, by id or by slug, is the row under its own id. */
  lemma NamedIsFound(tenants: seq<Tenant>, n: Naming)
    requires UniqueIds(tenants) && Named(tenants, n).Ok?
    ensures FindTenant(tenants, Named(tenants, n).value.id) == Some(Named(tenants, n).value)
  {
    if n.id.Some? && Parse(n.id.value).Some? {
      FoundHasId(tenants, Parse(n.id.value).value);
    } else {
      FoundBySlug(tenants, n.slug.value);
    }
  }

  ghost predicate TablesUnique(first: seq<Tenant>, events: seq<Event>) {
    forall i :: 0 <= i <= |events| ==> UniqueIds(TableAt(first, events, i))
  }

  /** `key` was what the table held for the tenant at event `k`. */
  predicate HeldAt(first: seq<Tenant>, wrapKey: string, events: seq<Event>, k: nat, id: Uuid, key: string)
    requires k < |events|
  {
    var row := FindTenant(TableAt(first, events, k), id);
    row.Some? && Open(row.value.dataKey, wrapKey) == Some(key)
  }

  /** A cache entry was decrypted at some event, and expires 300 seconds after it. */
  lemma {:induction false} EntriesHaveOrigin(first: seq<Tenant>, wrapKey: string, events: seq<Event>, i: nat, id: Uuid)
    returns (k: nat)
    requires i <= |events| && TablesUnique(first, events) && id in CacheAt(first, wrapKey, events, i)
    ensures var entry := CacheAt(first, wrapKey, events, i)[id];
            k < i && HeldAt(first, wrapKey, events, k, id, entry.key) && entry.expiresAt == events[k].now + KEY_TTL
  {
    var before := CacheAt(first, wrapKey, events, i - 1);
    if id in before && before[id] == CacheAt(first, wrapKey, events, i)[id] {
      k := EntriesHaveOrigin(first, wrapKey, events, i - 1, id);
    } else {
      k := i - 1;
      assert UniqueIds(TableAt(first, events, k));
      NamedIsFound(TableAt(first, events, k), events[k].naming);
    }
  }

  /** Every key handed out was in the table at the asking or less than 300 seconds before. */
  lemma KeysAreRecent(first: seq<Tenant>, wrapKey: string, events: seq<Event>, i: nat) returns (k: nat)
    requires i < |events| && events[i].Ask? && TablesUnique(first, events)
    requires AnswerAt(first, wrapKey, events, i).Ok?
    ensures k <= i && (k == i || events[k].now > events[i].now - KEY_TTL)
    ensures HeldAt(first, wrapKey, events, k, AnswerAt(first, wrapKey, events, i).value.tenant,
                   AnswerAt(first, wrapKey, events, i).value.key)
  {
    var table, cache := TableAt(first, events, i), CacheAt(first, wrapKey, events, i);
    var t := Named(table, events[i].naming).value;
    if t.id in cache && cache[t.id].IsValid(events[i].now) {
      k := EntriesHaveOrigin(first, wrapKey, events, i, t.id);
    } else {
      k := i;
      assert UniqueIds(table);
      NamedIsFound(table, events[i].naming);
    }
  }

  /** A replaced key is out of use after 300 seconds: if from event `r` on the table holds only
      `fresh` for a tenant, every answer for it 300 seconds or more after `r` carries `fresh`. */
  lemma ReplacedKeyDies(first: seq<Tenant>, wrapKey: string, events: seq<Event>, r: nat, i: nat, id: Uuid,
                        latest: string)
    requires r <= i < |events| && events[i].Ask? && InOrder(events) && TablesUnique(first, events)
    requires forall k, key :: r <= k <= i && HeldAt(first, wrapKey, events, k, id, key) ==> key == latest
    requires events[i].now >= events[r].now + KEY_TTL
    requires AnswerAt(first, wrapKey, events, i).Ok? && AnswerAt(first, wrapKey, events, i).value.tenant == id
    ensures AnswerAt(first, wrapKey, events, i).value.key == latest
  {
    var k := KeysAreRecent(first, wrapKey, events, i);
  }

  /** Data keys are written only when a tenant is inserted. */
  ghost predicate KeysStand(first: seq<Tenant>, events: seq<Event>) {
    forall k, i, id :: 0 <= k <= i <= |events| && FindTenant(TableAt(first, events, k), id).Some?
                       && FindTenant(TableAt(first, events, i), id).Some?
                       ==> FindTenant(TableAt(first, events, k), id).value.dataKey
                           == FindTenant(TableAt(first, events, i), id).value.dataKey
  }

  /** Coherence: while stored keys stand, the cache changes no answer, accepted or rejected, in any
      reachable state, however tenants come, go and are deactivated. */
  lemma CacheIsCoherent(first: seq<Tenant>, wrapKey: string, events: seq<Event>, i: nat)
    requires i < |events| && events[i].Ask? && TablesUnique(first, events) && KeysStand(first, events)
    ensures AnswerAt(first, wrapKey, events, i) == Direct(TableAt(first, events, i), wrapKey, events[i].naming)
  {
    var table, cache := TableAt(first, events, i), CacheAt(first, wrapKey, events, i);
    var named := Named(table, events[i].naming);
    if named.Ok? && named.value.id in cache && cache[named.value.id].IsValid(events[i].now) {
      var k := EntriesHaveOrigin(first, wrapKey, events, i, named.value.id);
      assert UniqueIds(table);
      NamedIsFound(table, events[i].naming);
      assert FindTenant(TableAt(first, events, k), named.value.id).value.dataKey == named.value.dataKey;
    }
  }

  // ── Whose key is handed out ────────────────────────────────────────────────

  /** The id header, if it parses, is the tenant's id; otherwise the slug header is its slug. */
  predicate Names(n: Naming, t: Tenant) {
    if n.id.Some? && Parse(n.id.value).Some? then Parse(n.id.value) == Some(t.id) else n.slug == Some(t.slug)
  }

  /** UNIQUE(slug). */
  predicate UniqueSlugs(tenants: seq<Tenant>) {
    forall i, k :: 0 <= i < k < |tenants| ==> tenants[i].slug != tenants[k].slug
  }

  lemma {:induction false} SlugIsThere(tenants: seq<Tenant>, slug: string)
    ensures match FindBySlug(tenants, slug)
            case None => forall k :: 0 <= k < |tenants| ==> tenants[k].slug != slug
            case Some(t) => t.slug == slug && exists k :: 0 <= k < |tenants| && tenants[k] == t
  {
    if tenants != [] && tenants[0].slug != slug {
      SlugIsThere(tenants[1..], slug);
      if FindBySlug(tenants[1..], slug).Some? {
        var k :| 0 <= k < |tenants[1..]| && tenants[1..][k] == FindBySlug(tenants[1..], slug).value;
        assert tenants[k + 1] == FindBySlug(tenants, slug).value;
      } else {
        forall k | 0 <= k < |tenants| ensures tenants[k].slug != slug {
          assert k > 0 ==> tenants[1..][k - 1] == tenants[k];
        }
      }
    }
  }

  /** The row is on file, active, and the one that the headers name. */
  ghost predicate Meant(tenants: seq<Tenant>, n: Naming, t: Tenant) {
    Names(n, t) && t.active && exists k :: 0 <= k < |tenants| && tenants[k] == t
  }

  lemma NamedIsMeant(tenants: seq<Tenant>, n: Naming)
    requires Named(tenants, n).Ok?
    ensures Meant(tenants, n, Named(tenants, n).value)
  {
    if n.id.Some? && Parse(n.id.value).Some? {
      Conditions.FoundIsThere(tenants, Parse(n.id.value).value);
    } else {
      SlugIsThere(tenants, n.slug.value);
    }
  }

  lemma MeantIsNamed(tenants: seq<Tenant>, n: Naming, t: Tenant)
    requires UniqueIds(tenants) && UniqueSlugs(tenants) && Meant(tenants, n, t)
    ensures Named(tenants, n) == Ok(t)
  {
    if n.id.Some? && Parse(n.id.value).Some? {
      Conditions.FoundIsThere(tenants, t.id);
    } else {
      SlugIsThere(tenants, t.slug);
    }
  }

  /** A key is handed out only for an active tenant on file that the headers name, cached or not. */
  lemma KeysGoToActiveTenants(first: seq<Tenant>, wrapKey: string, events: seq<Event>, i: nat) returns (t: Tenant)
    requires i < |events| && events[i].Ask? && AnswerAt(first, wrapKey, events, i).Ok?
    ensures Meant(TableAt(first, events, i), events[i].naming, t)
    ensures AnswerAt(first, wrapKey, events, i).value.tenant == t.id
  {
    var table := TableAt(first, events, i);
    t := Named(table, events[i].naming).value;
    NamedIsMeant(table, events[i].naming);
  }

  /** And while stored keys stand, exactly the stored key of that tenant, if it can be decrypted. */
  lemma AnsweredExactly(first: seq<Tenant>, wrapKey: string, events: seq<Event>, i: nat, t: Tenant)
    requires i < |events| && events[i].Ask? && TablesUnique(first, events) && KeysStand(first, events)
    requires UniqueSlugs(TableAt(first, events, i)) && Meant(TableAt(first, events, i), events[i].naming, t)
    ensures AnswerAt(first, wrapKey, events, i)
            == if t.dataKey.key == wrapKey then Ok(Ctx(t.id, t.dataKey.plain)) else Err(CryptoError)
  {
    CacheIsCoherent(first, wrapKey, events, i);
    assert UniqueIds(TableAt(first, events, i));
    MeantIsNamed(TableAt(first, events, i), events[i].naming, t);
  }
}
