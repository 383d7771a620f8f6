/** Which tenant an administrator's request reaches, and why runs of such requests leave every other
    tenant's roles and permissions alone (handlers/admin_auth.rs, db.rs). */
module TenantIsolation {
  import opened Prelude
  import opened Uuids
  import opened Jwt
  import opened AdminAuth
  import opened Rbac

  // ── Where a call acts ──────────────────────────────────────────────────────

  datatype Call = Call(headers: Headers, now: int, op: Op)

  /** The tenant whose transaction a call is executed in, if it is executed. */
  function Reaches(cfg: AdminConfig, call: Call): Option<Uuid> {
    if RequireAdmin(call.headers, cfg, call.now).Denied? then None else HeaderTenant(call.headers)
  }

  /** A scoped call reaches a transaction exactly when it names its own tenant, and then that one. */
  lemma ScopedReachesOwnTenant(cfg: AdminConfig, call: Call, tid: Uuid)
    requires RequireAdmin(call.headers, cfg, call.now) == Only(tid)
    ensures Reaches(cfg, call) == if HeaderTenant(call.headers) == Some(tid) then Some(tid) else None
  {}

  /** A token of the scoped administrator cannot reach any tenant but its own, whatever the headers. */
  lemma TokenCannotRoam(cfg: AdminConfig, call: Call, c: Claims, signer: Keys, tid: Uuid)
    requires call.headers.bearer == Some(AccessToken(c, signer)) && c.tid == Text(tid)
    requires cfg.master != Some(tid)
    requires !ShowsAdminKey(call.headers, cfg)
    ensures Reaches(cfg, call).Some? ==> Reaches(cfg, call) == Some(tid)
  {
    AccessTokenValidity(c, signer, cfg.keys, call.now);
    ParseText(tid);
  }

  // ── A tenant's transaction sees only its rows ──────────────────────────────

  function Rows(rows: map<Link, Uuid>, t: Uuid): map<Link, Uuid> {
    map k | k in rows && rows[k] == t :: rows[k]
  }

  function RolesOf(roles: map<Uuid, Role>, t: Uuid): map<Uuid, Role> {
    map r | r in roles && roles[r].tenant == t :: roles[r]
  }

  function PermissionsOf(permissions: map<Uuid, Permission>, t: Uuid): map<Uuid, Permission> {
    map p | p in permissions && permissions[p].tenant == t :: permissions[p]
  }

  /** What row-level security leaves visible to tenant `t`. */
  function View(db: Tables, t: Uuid): Tables {
    Tables(db.users, db.clients, RolesOf(db.roles, t), PermissionsOf(db.permissions, t),
           Rows(db.userRoles, t), Rows(db.rolePermissions, t), Rows(db.clientRoles, t))
  }

  /** What anyone may do in a tenant depends on that tenant's rows alone. */
  lemma QueriesSeeOwnRows(db: Tables, t: Uuid, u: Uuid, client: Uuid, name: string)
    ensures HasRole(db, t, u, name) <==> HasRole(View(db, t), t, u, name)
    ensures HasClientRole(db, t, u, client, name) <==> HasClientRole(View(db, t), t, u, client, name)
    ensures HasPermission(db, t, u, name) <==> HasPermission(View(db, t), t, u, name)
  {
    var v := View(db, t);
    forall r ensures Bears(db, t, u, r) <==> Bears(v, t, u, r) {}
    forall r ensures Through(db, t, u, r, name) <==> Through(v, t, u, r, name) {
      forall p ensures Grants(db, t, u, r, p) <==> Grants(v, t, u, r, p) {}
    }
  }

  // ── Runs of calls ──────────────────────────────────────────────────────────

  /** Every link names a role, and every grant a permission, of the link's own tenant. */
  ghost predicate Consistent(db: Tables) {
    && (forall k :: k in db.userRoles ==> k.right in db.roles && db.roles[k.right].tenant == db.userRoles[k])
    && (forall k :: k in db.rolePermissions ==> k.left in db.roles && db.roles[k.left].tenant == db.rolePermissions[k])
    && (forall k :: k in db.rolePermissions ==>
          k.right in db.permissions && db.permissions[k.right].tenant == db.rolePermissions[k])
    && (forall k :: k in db.clientRoles ==> k.right in db.roles && db.roles[k.right].tenant == db.clientRoles[k])
  }

  predicate OwnRole(db: Tables, t: Uuid, r: Uuid) { r in db.roles ==> db.roles[r].tenant == t }

  predicate OwnPermission(db: Tables, t: Uuid, p: Uuid) { p in db.permissions ==> db.permissions[p].tenant == t }

  /** The ids an operation assigns belong to the tenant it runs in. */
  predicate OwnIds(db: Tables, t: Uuid, op: Op) {
    match op
    case AssignRole(_, role) => OwnRole(db, t, role)
    case AssignPermission(role, permission) => OwnRole(db, t, role) && OwnPermission(db, t, permission)
    case AssignClientRole(_, role) => OwnRole(db, t, role)
    case _ => true
  }

  lemma StaysConsistent(db: Tables, t: Uuid, op: Op)
    requires Consistent(db) && OwnIds(db, t, op)
    ensures Consistent(Apply(db, t, op))
  {}

  lemma RowsInserted(rows: map<Link, Uuid>, t: Uuid, left: Uuid, right: Uuid, known: bool, other: Uuid)
    requires other != t
    ensures Rows(Insert(rows, t, left, right, known), other) == Rows(rows, other)
  {}

  lemma RowsRemoved(rows: map<Link, Uuid>, t: Uuid, left: Uuid, right: Uuid, other: Uuid)
    requires other != t
    ensures Rows(Remove(rows, t, left, right), other) == Rows(rows, other)
  {}

  ghost predicate RightOf(rows: map<Link, Uuid>, other: Uuid, id: Uuid) {
    exists k :: k in rows && rows[k] == other && k.right == id
  }

  ghost predicate LeftOf(rows: map<Link, Uuid>, other: Uuid, id: Uuid) {
    exists k :: k in rows && rows[k] == other && k.left == id
  }

  lemma RowsCascaded(rows: map<Link, Uuid>, id: Uuid, other: Uuid)
    ensures Rows(WithoutRight(rows, id), other) != Rows(rows, other) <==> RightOf(rows, other, id)
    ensures Rows(WithoutLeft(rows, id), other) != Rows(rows, other) <==> LeftOf(rows, other, id)
  {
    if k :| k in rows && rows[k] == other && k.right == id {
      assert k in Rows(rows, other) && k !in Rows(WithoutRight(rows, id), other);
    }
    if k :| k in rows && rows[k] == other && k.left == id {
      assert k in Rows(rows, other) && k !in Rows(WithoutLeft(rows, id), other);
    }
  }

  lemma OtherEntitiesStand(db: Tables, t: Uuid, op: Op, other: Uuid)
    requires other != t
    ensures RolesOf(Apply(db, t, op).roles, other) == RolesOf(db.roles, other)
    ensures PermissionsOf(Apply(db, t, op).permissions, other) == PermissionsOf(db.permissions, other)
  {}

  /** The operation deletes a role or a permission that a link of `other` refers to. */
  ghost predicate Crosses(db: Tables, t: Uuid, op: Op, other: Uuid) {
    match op
    case DeleteRole(id) =>
      DeletesRole(db, t, op, id)
      && (RightOf(db.userRoles, other, id) || LeftOf(db.rolePermissions, other, id)
          || RightOf(db.clientRoles, other, id))
    case DeletePermission(id) => DeletesPermission(db, t, op, id) && RightOf(db.rolePermissions, other, id)
    case _ => false
  }

  lemma UserRolesCross(db: Tables, t: Uuid, op: Op, other: Uuid)
    requires other != t
    ensures Rows(Apply(db, t, op).userRoles, other) != Rows(db.userRoles, other)
            <==> op.DeleteRole? && DeletesRole(db, t, op, op.id) && RightOf(db.userRoles, other, op.id)
  {
    match op
    case DeleteRole(id) => RowsCascaded(db.userRoles, id, other);
    case AssignRole(user, role) =>
      RowsInserted(db.userRoles, t, user, role, user in db.users && role in db.roles, other);
    case RevokeRole(user, role) => RowsRemoved(db.userRoles, t, user, role, other);
    case _ =>
  }

  lemma GrantsCross(db: Tables, t: Uuid, op: Op, other: Uuid)
    requires other != t
    ensures Rows(Apply(db, t, op).rolePermissions, other) != Rows(db.rolePermissions, other)
            <==> || (op.DeleteRole? && DeletesRole(db, t, op, op.id) && LeftOf(db.rolePermissions, other, op.id))
                 || (op.DeletePermission? && DeletesPermission(db, t, op, op.id)
                     && RightOf(db.rolePermissions, other, op.id))
  {
    match op
    case DeleteRole(id) => RowsCascaded(db.rolePermissions, id, other);
    case DeletePermission(id) => RowsCascaded(db.rolePermissions, id, other);
    case AssignPermission(role, permission) =>
      RowsInserted(db.rolePermissions, t, role, permission, role in db.roles && permission in db.permissions, other);
    case RevokePermission(role, permission) => RowsRemoved(db.rolePermissions, t, role, permission, other);
    case _ =>
  }

  lemma ClientRolesCross(db: Tables, t: Uuid, op: Op, other: Uuid)
    requires other != t
    ensures Rows(Apply(db, t, op).clientRoles, other) != Rows(db.clientRoles, other)
            <==> op.DeleteRole? && DeletesRole(db, t, op, op.id) && RightOf(db.clientRoles, other, op.id)
  {
    match op
    case DeleteRole(id) => RowsCascaded(db.clientRoles, id, other);
    case AssignClientRole(client, role) =>
      RowsInserted(db.clientRoles, t, client, role, client in db.clients && role in db.roles, other);
    case RevokeClientRole(client, role) => RowsRemoved(db.clientRoles, t, client, role, other);
    case _ =>
  }

  /** An operation in a transaction of one tenant changes another tenant's view if and only if it deletes a
      role or a permission that one of that tenant's links refers to, which a cascade then takes along. */
  lemma ViewChangesExactly(db: Tables, t: Uuid, op: Op, other: Uuid)
    requires other != t
    ensures View(Apply(db, t, op), other) != View(db, other) <==> Crosses(db, t, op, other)
  {
    OtherEntitiesStand(db, t, op, other);
    UserRolesCross(db, t, op, other);
    GrantsCross(db, t, op, other);
    ClientRolesCross(db, t, op, other);
  }

  /** While links stay within tenants, one tenant's operation leaves every other tenant's view as it was. */
  lemma OtherViewsStand(db: Tables, t: Uuid, op: Op, other: Uuid)
    requires Consistent(db) && other != t
    ensures View(Apply(db, t, op), other) == View(db, other)
  {
    ViewChangesExactly(db, t, op, other);
  }

  function Serve(before: Tables, cfg: AdminConfig, call: Call): Tables {
    var t := Reaches(cfg, call);
    if t.None? then before else Apply(before, t.value, call.op)
  }

  /** The tables after the first `i` calls. */
  function After(db: Tables, cfg: AdminConfig, calls: seq<Call>, i: nat): Tables
    requires i <= |calls|
  {
    if i == 0 then db else Serve(After(db, cfg, calls, i - 1), cfg, calls[i - 1])
  }

  /** Calls of whatever administrators, none of which reaches `other` and each of which assigns only ids of the
      tenant it reaches. */
  ghost predicate StayOut(db: Tables, cfg: AdminConfig, calls: seq<Call>, other: Uuid) {
    forall i :: 0 <= i < |calls| ==> OutAt(db, cfg, calls, other, i)
  }

  predicate OutAt(db: Tables, cfg: AdminConfig, calls: seq<Call>, other: Uuid, i: nat)
    requires i < |calls|
  {
    match Reaches(cfg, calls[i])
    case None => true
    case Some(t) => t != other && OwnIds(After(db, cfg, calls, i), t, calls[i].op)
  }

  lemma {:induction false} CallsStayOut(db: Tables, cfg: AdminConfig, calls: seq<Call>, other: Uuid, i: nat)
    requires Consistent(db) && StayOut(db, cfg, calls, other) && i <= |calls|
    ensures Consistent(After(db, cfg, calls, i)) && View(After(db, cfg, calls, i), other) == View(db, other)
  {
    if i > 0 {
      CallsStayOut(db, cfg, calls, other, i - 1);
      assert OutAt(db, cfg, calls, other, i - 1);
      var before, t := After(db, cfg, calls, i - 1), Reaches(cfg, calls[i - 1]);
      if t.Some? {
        StaysConsistent(before, t.value, calls[i - 1].op);
        OtherViewsStand(before, t.value, calls[i - 1].op, other);
      }
    }
  }

  /** Tenant isolation: no mix of calls that stays out of a tenant changes what anybody may do there. */
  lemma TenantsAreIsolated(db: Tables, cfg: AdminConfig, calls: seq<Call>, other: Uuid, u: Uuid, client: Uuid,
                           name: string)
    requires Consistent(db) && StayOut(db, cfg, calls, other)
    ensures var after := After(db, cfg, calls, |calls|);
            && (HasRole(after, other, u, name) <==> HasRole(db, other, u, name))
            && (HasClientRole(after, other, u, client, name) <==> HasClientRole(db, other, u, client, name))
            && (HasPermission(after, other, u, name) <==> HasPermission(db, other, u, name))
  {
    CallsStayOut(db, cfg, calls, other, |calls|);
    QueriesSeeOwnRows(db, other, u, client, name);
    QueriesSeeOwnRows(After(db, cfg, calls, |calls|), other, u, client, name);
  }

  /** Every call is refused, or made by a SuperAdmin scoped to some tenant but `other`, whose ids it assigns. */
  ghost predicate ScopedElsewhere(db: Tables, cfg: AdminConfig, calls: seq<Call>, other: Uuid) {
    forall i :: 0 <= i < |calls| ==> ScopedAt(db, cfg, calls, other, i)
  }

  predicate ScopedAt(db: Tables, cfg: AdminConfig, calls: seq<Call>, other: Uuid, i: nat)
    requires i < |calls|
  {
    match RequireAdmin(calls[i].headers, cfg, calls[i].now)
    case Denied => true
    case Everywhere => false
    case Only(tid) => tid != other && OwnIds(After(db, cfg, calls, i), tid, calls[i].op)
  }

  /** Scoped administrators of any number of tenants stay out of all others. */
  lemma ScopedCallsStayOut(db: Tables, cfg: AdminConfig, calls: seq<Call>, other: Uuid)
    requires ScopedElsewhere(db, cfg, calls, other)
    ensures StayOut(db, cfg, calls, other)
  {
    forall i | 0 <= i < |calls| ensures OutAt(db, cfg, calls, other, i) {
      assert ScopedAt(db, cfg, calls, other, i);
      var scope := RequireAdmin(calls[i].headers, cfg, calls[i].now);
      if scope.Only? {
        ScopedReachesOwnTenant(cfg, calls[i], scope.tenant);
      }
    }
  }

  // ── Where assigned ids are foreign ─────────────────────────────────────────

  /** An administrator of `other` gives a user a role of `t` and the role a permission of `other`. */
  function Borrowed(db: Tables, other: Uuid, u: Uuid, role: Uuid, p: Uuid): Tables {
    Apply(Apply(db, other, AssignRole(u, role)), other, AssignPermission(role, p))
  }

  lemma BorrowedRoleGrants(db: Tables, other: Uuid, u: Uuid, role: Uuid, p: Uuid)
    requires u in db.users && role in db.roles && p in db.permissions && db.permissions[p].tenant == other
    requires Link(u, role) !in db.userRoles && Link(role, p) !in db.rolePermissions
    ensures HasPermission(Borrowed(db, other, u, role, p), other, u, db.permissions[p].name)
  {
    var after := Borrowed(db, other, u, role, p);
    assert Grants(after, other, u, role, p);
    assert Through(after, other, u, role, db.permissions[p].name);
  }

  lemma DeletedRoleGrantsNothing(db: Tables, t: Uuid, other: Uuid, u: Uuid, role: Uuid, p: Uuid, name: string)
    requires role in db.roles && db.roles[role].tenant == t
    ensures HasPermission(Apply(Borrowed(db, other, u, role, p), t, DeleteRole(role)), other, u, name)
            ==> HasPermission(db, other, u, name)
  {
    var after := Apply(Borrowed(db, other, u, role, p), t, DeleteRole(role));
    if HasPermission(after, other, u, name) {
      var r :| Through(after, other, u, r, name);
      var q :| Grants(after, other, u, r, q) && after.permissions[q].name == name;
      assert Grants(db, other, u, r, q);
      assert Through(db, other, u, r, name);
    }
  }

  /** A run that crosses: an administrator of `other` uses a role of another tenant, and that tenant's
      administrator, deleting the role, takes a permission away in `other`. */
  lemma BorrowedRoleCrosses(db: Tables, cfg: AdminConfig, mine: Headers, theirs: Headers, now: int, t: Uuid,
                            other: Uuid, u: Uuid, role: Uuid, p: Uuid) returns (calls: seq<Call>)
    requires Reaches(cfg, Call(mine, now, DeleteRole(role))) == Some(t)
    requires Reaches(cfg, Call(theirs, now, AssignRole(u, role))) == Some(other) && other != t
    requires u in db.users && role in db.roles && db.roles[role].tenant == t
    requires p in db.permissions && db.permissions[p].tenant == other
    requires Link(u, role) !in db.userRoles && Link(role, p) !in db.rolePermissions
    requires !HasPermission(db, other, u, db.permissions[p].name)
    ensures calls == [Call(theirs, now, AssignRole(u, role)), Call(theirs, now, AssignPermission(role, p)),
                      Call(mine, now, DeleteRole(role))]
    ensures Crosses(After(db, cfg, calls, 2), t, DeleteRole(role), other)
    ensures HasPermission(After(db, cfg, calls, 2), other, u, db.permissions[p].name)
    ensures !HasPermission(After(db, cfg, calls, 3), other, u, db.permissions[p].name)
  {
    calls := [Call(theirs, now, AssignRole(u, role)), Call(theirs, now, AssignPermission(role, p)),
              Call(mine, now, DeleteRole(role))];
    var borrowed := Borrowed(db, other, u, role, p);
    assert After(db, cfg, calls, 1) == Apply(db, other, AssignRole(u, role));
    assert After(db, cfg, calls, 2) == borrowed;
    assert After(db, cfg, calls, 3) == Apply(borrowed, t, DeleteRole(role));
    BorrowedRoleGrants(db, other, u, role, p);
    DeletedRoleGrantsNothing(db, t, other, u, role, p, db.permissions[p].name);
    assert Link(u, role) in borrowed.userRoles && borrowed.userRoles[Link(u, role)] == other;
  }

  /** The same with a permission: an administrator of `other` gives it to a role, its own tenant's deletes it. */
  lemma BorrowedPermissionCrosses(db: Tables, cfg: AdminConfig, mine: Headers, theirs: Headers, now: int, t: Uuid,
                                  other: Uuid, role: Uuid, p: Uuid) returns (calls: seq<Call>)
    requires Reaches(cfg, Call(mine, now, DeletePermission(p))) == Some(t)
    requires Reaches(cfg, Call(theirs, now, AssignPermission(role, p))) == Some(other) && other != t
    requires role in db.roles && p in db.permissions && db.permissions[p].tenant == t
    requires Link(role, p) !in db.rolePermissions
    ensures calls == [Call(theirs, now, AssignPermission(role, p)), Call(mine, now, DeletePermission(p))]
    ensures Crosses(After(db, cfg, calls, 1), t, DeletePermission(p), other)
    ensures View(After(db, cfg, calls, 2), other) != View(After(db, cfg, calls, 1), other)
  {
    calls := [Call(theirs, now, AssignPermission(role, p)), Call(mine, now, DeletePermission(p))];
    var borrowed := Apply(db, other, AssignPermission(role, p));
    assert After(db, cfg, calls, 1) == borrowed;
    assert After(db, cfg, calls, 2) == Apply(borrowed, t, DeletePermission(p));
    assert Link(role, p) in borrowed.rolePermissions && borrowed.rolePermissions[Link(role, p)] == other;
    ViewChangesExactly(borrowed, t, DeletePermission(p), other);
  }
}
