/** The tables of the credential database, keyed as their primary and unique keys demand, and
    the queries and updates the services run on one table. `tenant` arguments are the row
    filter that a tenant transaction's policy applies. */
module Schema {
  import opened Prelude
  import opened Uuids
  import opened Crypto
  import opened RateLimit

  /** Seconds; one reading per request. */
  type Time = int

  const MINUTE := 60
  const HOUR := 3600
  const DAY := 86400

  datatype Owner = Owner(tenant: Uuid, user: Uuid)

  datatype Settings = Settings(maxAttempts: int, windowMinutes: int, accessMinutes: int, refreshDays: int,
                               registration: bool, requireVerified: bool)

  const DEFAULT_SETTINGS := Settings(5, 15, 15, 30, true, false)

  datatype Tenant = Tenant(id: Uuid, slug: string, name: string, active: bool, dataKey: Sealed)

  datatype User = User(tenant: Uuid, lookup: Lookup, email: Sealed, password: PasswordHash,
                       active: bool, verified: bool)

  datatype Client = Client(tenant: Uuid, secretHash: Digest, redirectUris: set<string>, confidential: bool,
                           active: bool, accessMinutes: Option<int>, refreshDays: Option<int>)

  datatype AuthCode = AuthCode(tenant: Uuid, user: Uuid, clientId: string, redirectUri: string,
                               challenge: Challenge, expiresAt: Time, usedAt: Option<Time>)

  datatype RefreshRow = RefreshRow(tenant: Uuid, user: Uuid, expiresAt: Time, revokedAt: Option<Time>)

  datatype Session = Session(tenant: Uuid, user: Uuid, expiresAt: Time, lastSeen: Time)

  datatype Attempt = Attempt(tenant: Uuid, lookup: Lookup, at: Time)

  datatype OneTimeKind = PasswordReset | EmailVerification

  datatype OneTime = OneTime(tenant: Uuid, user: Uuid, kind: OneTimeKind, expiresAt: Time, usedAt: Option<Time>)

  datatype TotpRow = TotpRow(secret: Sealed, enabled: bool)

  datatype BackupRow = BackupRow(tenant: Uuid, user: Uuid, code: Digest, usedAt: Option<Time>)

  datatype HistoryRow = HistoryRow(tenant: Uuid, user: Uuid, hash: PasswordHash, at: Time)

  type Users = map<Uuid, User>
  type RefreshTable = map<Digest, RefreshRow>
  type SessionTable = map<string, Session>
  type JtiTable = map<string, Time>

  datatype Db = Db(
    settings: map<Uuid, Settings>,
    historySize: map<Uuid, int>,
    tenants: seq<Tenant>,
    users: Users,
    clients: map<string, Client>,
    codes: map<string, AuthCode>,
    refresh: RefreshTable,
    jtis: JtiTable,
    sessions: SessionTable,
    attempts: seq<Attempt>,
    buckets: Buckets,
    oneTime: map<Digest, OneTime>,
    totp: map<Owner, TotpRow>,
    backup: seq<BackupRow>,
    history: seq<HistoryRow>)

  // ── Tenants and users ──────────────────────────────────────────────────────

  function SettingsOf(settings: map<Uuid, Settings>, t: Uuid): Settings {
    if t in settings then settings[t] else DEFAULT_SETTINGS
  }

  function HistorySizeOf(sizes: map<Uuid, int>, t: Uuid): int {
    if t in sizes then sizes[t] else 0
  }

  function FindTenant(tenants: seq<Tenant>, id: Uuid): Option<Tenant> {
    if tenants == [] then None
    else if tenants[0].id == id then Some(tenants[0])
    else FindTenant(tenants[1..], id)
  }

  /** The primary key of tenants. */
  predicate UniqueIds(tenants: seq<Tenant>) {
    forall i, k :: 0 <= i < k < |tenants| ==> tenants[i].id != tenants[k].id
  }

  function VisibleUser(users: Users, t: Uuid, id: Uuid): Option<User> {
    if id in users && users[id].tenant == t then Some(users[id]) else None
  }

  predicate HasLookup(users: Users, id: Uuid, t: Uuid, l: Lookup) {
    id in users && users[id].tenant == t && users[id].lookup == l
  }

  /** UNIQUE(tenant_id, email_lookup). */
  ghost predicate UniqueLookups(users: Users) {
    forall i, j, t, l :: HasLookup(users, i, t, l) && HasLookup(users, j, t, l) ==> i == j
  }

  ghost function FindByLookup(users: Users, t: Uuid, l: Lookup): (r: Option<Uuid>)
    ensures r.Some? ==> HasLookup(users, r.value, t, l)
    ensures r.None? ==> forall id :: !HasLookup(users, id, t, l)
  {
    if exists id :: HasLookup(users, id, t, l) then
      var id :| HasLookup(users, id, t, l); Some(id)
    else None
  }

  // ── refresh_tokens ─────────────────────────────────────────────────────────

  predicate Live(row: RefreshRow, now: Time) {
    row.revokedAt.None? && row.expiresAt > now
  }

  function FindLive(table: RefreshTable, t: Uuid, h: Digest, now: Time): Option<RefreshRow> {
    if h in table && table[h].tenant == t && Live(table[h], now) then Some(table[h]) else None
  }

  function Revoked(row: RefreshRow, now: Time): RefreshRow {
    row.(revokedAt := Some(now))
  }

  function RevokeAllOf(table: RefreshTable, t: Uuid, user: Uuid, now: Time): RefreshTable {
    map h | h in table ::
      if table[h].tenant == t && table[h].user == user && table[h].revokedAt.None?
      then Revoked(table[h], now) else table[h]
  }

  function PurgeRefresh(table: RefreshTable, now: Time): RefreshTable {
    map h | h in table && table[h].expiresAt >= now :: table[h]
  }

  // ── revoked_jtis, sessions ─────────────────────────────────────────────────

  function RevokeJti(jtis: JtiTable, jti: string, expiresAt: Time): JtiTable {
    if jti in jtis then jtis else jtis[jti := expiresAt]
  }

  function PurgeJtis(jtis: JtiTable, now: Time): JtiTable {
    map j | j in jtis && jtis[j] >= now :: jtis[j]
  }

  function FindSession(sessions: SessionTable, id: string, now: Time): Option<Session> {
    if id in sessions && sessions[id].expiresAt > now then Some(sessions[id]) else None
  }

  function TouchSession(sessions: SessionTable, id: string, now: Time): SessionTable {
    if id in sessions then sessions[id := sessions[id].(lastSeen := now)] else sessions
  }

  function PurgeSessions(sessions: SessionTable, now: Time): SessionTable {
    map s | s in sessions && sessions[s].expiresAt >= now :: sessions[s]
  }

  // ── login_attempts ─────────────────────────────────────────────────────────

  function AsUsize(n: int): int {
    if n >= 0 then n else n + 0x1_0000_0000_0000_0000
  }

  predicate Mine(a: Attempt, t: Uuid, l: Lookup) { a.tenant == t && a.lookup == l }

  function CountSince(attempts: seq<Attempt>, t: Uuid, l: Lookup, since: Time): nat {
    if attempts == [] then 0
    else CountSince(attempts[..|attempts| - 1], t, l, since)
         + if Mine(attempts[|attempts| - 1], t, l) && attempts[|attempts| - 1].at >= since then 1 else 0
  }

  predicate Locked(settings: map<Uuid, Settings>, attempts: seq<Attempt>, t: Uuid, l: Lookup, now: Time) {
    var s := SettingsOf(settings, t);
    CountSince(attempts, t, l, now - s.windowMinutes * MINUTE) >= AsUsize(s.maxAttempts)
  }

  function Cleared(attempts: seq<Attempt>, t: Uuid, l: Lookup): seq<Attempt> {
    if attempts == [] then []
    else Cleared(attempts[..|attempts| - 1], t, l)
         + if Mine(attempts[|attempts| - 1], t, l) then [] else [attempts[|attempts| - 1]]
  }

  const ATTEMPT_RETENTION := 60 * MINUTE

  /** The attempts made at or after `cutoff`. */
  function KeptSince(attempts: seq<Attempt>, cutoff: Time): seq<Attempt> {
    if attempts == [] then []
    else KeptSince(attempts[..|attempts| - 1], cutoff)
         + if attempts[|attempts| - 1].at >= cutoff then [attempts[|attempts| - 1]] else []
  }

  // ── mfa_backup_codes ───────────────────────────────────────────────────────

  const BACKUP_CODE_COUNT := 10

  function AsciiUpper(c: char): char {
    if 'a' <= c <= 'z' then c - 'a' + 'A' else c
  }

  /** Upper-casing, one character at a time. */
  type Fold = char -> string

  /** What is known of Unicode's: the ASCII letters. */
  ghost predicate FoldsAscii(upper: Fold) {
    forall c: char :: c as int < 128 ==> upper(c) == [AsciiUpper(c)]
  }

  function Uppercase(upper: Fold, s: string): string {
    if s == "" then "" else upper(s[0]) + Uppercase(upper, s[1..])
  }

  function WithoutHyphens(s: string): string {
    if s == "" then "" else (if s[0] == '-' then "" else [s[0]]) + WithoutHyphens(s[1..])
  }

  /** Upper-cased, then hyphens removed. */
  function Canonical(upper: Fold, code: string): string { WithoutHyphens(Uppercase(upper, code)) }

  function HashBackup(upper: Fold, code: string): Digest { Sha256(Canonical(upper, code)) }

  /** Eight base32 letters with a hyphen in the middle. */
  predicate DrawnCode(s: string) {
    |s| == 9 && s[4] == '-' && forall i :: 0 <= i < 9 && i != 4 ==> 'A' <= s[i] <= 'Z' || '2' <= s[i] <= '7'
  }

  predicate Redeemable(b: BackupRow, o: Owner, h: Digest) {
    Owner(b.tenant, b.user) == o && b.code == h && b.usedAt.None?
  }

  /** Index of the row `.one()` returns, or the length of the table. */
  function FindBackup(rows: seq<BackupRow>, o: Owner, h: Digest): (i: nat)
    ensures i <= |rows|
    ensures i < |rows| ==> Redeemable(rows[i], o, h)
    ensures forall k :: 0 <= k < i ==> !Redeemable(rows[k], o, h)
  {
    if rows == [] || Redeemable(rows[0], o, h) then 0
    else 1 + FindBackup(rows[1..], o, h)
  }

  function WithoutBackups(rows: seq<BackupRow>, o: Owner): seq<BackupRow> {
    if rows == [] then []
    else (if Owner(rows[0].tenant, rows[0].user) == o then [] else [rows[0]]) + WithoutBackups(rows[1..], o)
  }

  function BackupRows(upper: Fold, codes: seq<string>, o: Owner): (rows: seq<BackupRow>)
    ensures |rows| == |codes|
    ensures forall i :: 0 <= i < |codes| ==> rows[i] == BackupRow(o.tenant, o.user, HashBackup(upper, codes[i]), None)
  {
    seq(|codes|, i requires 0 <= i < |codes| => BackupRow(o.tenant, o.user, HashBackup(upper, codes[i]), None))
  }

  // ── password_history ───────────────────────────────────────────────────────

  /** The hashes recorded for a user of a tenant, oldest first. */
  function HashesOf(rows: seq<HistoryRow>, o: Owner): seq<PasswordHash> {
    if rows == [] then []
    else HashesOf(rows[..|rows| - 1], o)
         + if Owner(rows[|rows| - 1].tenant, rows[|rows| - 1].user) == o then [rows[|rows| - 1].hash] else []
  }

  /** ORDER BY created_at DESC LIMIT n on rows inserted in time order. */
  function Newest<T>(s: seq<T>, n: int): (r: seq<T>)
    ensures n >= |s| ==> r == s
  {
    if n <= 0 then [] else if n >= |s| then s else s[|s| - n..]
  }

  predicate Reuses(rows: seq<HistoryRow>, o: Owner, password: string, size: int) {
    exists i :: 0 <= i < |Newest(HashesOf(rows, o), size)|
                && VerifyPassword(password, Newest(HashesOf(rows, o), size)[i])
  }
}
