/** Roles and permissions (services/role_service.rs, services/permission_service.rs): the tables, the
    queries a tenant transaction sees, and the three-query pipelines that name what a user may do. */
module Rbac {
  import opened Uuids

  datatype Role = Role(tenant: Uuid, name: string)

  datatype Permission = Permission(tenant: Uuid, name: string)

  /** Primary key of a link row: (user, role), (role, permission) or (client, role). */
  datatype Link = Link(left: Uuid, right: Uuid)

  datatype Tables = Tables(
    users: set<Uuid>,
    clients: set<Uuid>,
    roles: map<Uuid, Role>,
    permissions: map<Uuid, Permission>,
    userRoles: map<Link, Uuid>,
    rolePermissions: map<Link, Uuid>,
    clientRoles: map<Link, Uuid>)

  // ── What a user may do, stated outright ────────────────────────────────────

  /** The row policy: a link row exists and belongs to the transaction's tenant. */
  predicate Linked(rows: map<Link, Uuid>, t: Uuid, left: Uuid, right: Uuid) {
    Link(left, right) in rows && rows[Link(left, right)] == t
  }

  predicate Grants(db: Tables, t: Uuid, u: Uuid, r: Uuid, p: Uuid) {
    Linked(db.userRoles, t, u, r) && Linked(db.rolePermissions, t, r, p)
    && p in db.permissions && db.permissions[p].tenant == t
  }

  ghost predicate Through(db: Tables, t: Uuid, u: Uuid, r: Uuid, name: string) {
    exists p :: Grants(db, t, u, r, p) && db.permissions[p].name == name
  }

  ghost predicate HasPermission(db: Tables, t: Uuid, u: Uuid, name: string) {
    exists r :: Through(db, t, u, r, name)
  }

  predicate Bears(db: Tables, t: Uuid, u: Uuid, r: Uuid) {
    Linked(db.userRoles, t, u, r) && r in db.roles && db.roles[r].tenant == t
  }

  ghost predicate HasRole(db: Tables, t: Uuid, u: Uuid, name: string) {
    exists r :: Bears(db, t, u, r) && db.roles[r].name == name
  }

  ghost predicate HasClientRole(db: Tables, t: Uuid, u: Uuid, client: Uuid, name: string) {
    exists r :: Bears(db, t, u, r) && Linked(db.clientRoles, t, client, r) && db.roles[r].name == name
  }

  // ── The administrative operations ──────────────────────────────────────────

  datatype Op =
    | CreateRole(id: Uuid, name: string)
    | UpdateRole(id: Uuid, name: string)
    | DeleteRole(id: Uuid)
    | AssignRole(user: Uuid, role: Uuid)
    | RevokeRole(user: Uuid, role: Uuid)
    | CreatePermission(id: Uuid, name: string)
    | UpdatePermission(id: Uuid, name: string)
    | DeletePermission(id: Uuid)
    | AssignPermission(role: Uuid, permission: Uuid)
    | RevokePermission(role: Uuid, permission: Uuid)
    | AssignClientRole(client: Uuid, role: Uuid)
    | RevokeClientRole(client: Uuid, role: Uuid)

  /** UNIQUE(tenant_id, name), apart from the row being written. */
  predicate RoleNameTaken(roles: map<Uuid, Role>, t: Uuid, name: string, id: Uuid) {
    exists r :: r in roles && r != id && roles[r] == Role(t, name)
  }

  predicate PermissionNameTaken(permissions: map<Uuid, Permission>, t: Uuid, name: string, id: Uuid) {
    exists p :: p in permissions && p != id && permissions[p] == Permission(t, name)
  }

  /** ON DELETE CASCADE, which no row policy stops. */
  function WithoutRight(rows: map<Link, Uuid>, id: Uuid): map<Link, Uuid> {
    map k | k in rows && k.right != id :: rows[k]
  }

  function WithoutLeft(rows: map<Link, Uuid>, id: Uuid): map<Link, Uuid> {
    map k | k in rows && k.left != id :: rows[k]
  }

  /** An insert that conflicts or refers to a missing row is ignored. */
  function Insert(rows: map<Link, Uuid>, t: Uuid, left: Uuid, right: Uuid, known: bool): map<Link, Uuid> {
    if known && Link(left, right) !in rows then rows[Link(left, right) := t] else rows
  }

  /** DELETE by primary key, seen through the policy. */
  function Remove(rows: map<Link, Uuid>, t: Uuid, left: Uuid, right: Uuid): map<Link, Uuid> {
    if Linked(rows, t, left, right) then rows - {Link(left, right)} else rows
  }

  /** What one operation in a transaction of tenant `t` leaves behind; one that fails leaves nothing. */
  function Apply(db: Tables, t: Uuid, op: Op): Tables {
    match op
    case CreateRole(id, name) =>
      if id in db.roles || RoleNameTaken(db.roles, t, name, id) then db
      else db.(roles := db.roles[id := Role(t, name)])
    case UpdateRole(id, name) =>
      if id !in db.roles || db.roles[id].tenant != t || RoleNameTaken(db.roles, t, name, id) then db
      else db.(roles := db.roles[id := Role(t, name)])
    case DeleteRole(id) =>
      if id !in db.roles || db.roles[id].tenant != t then db
      else db.(roles := db.roles - {id}, userRoles := WithoutRight(db.userRoles, id),
               rolePermissions := WithoutLeft(db.rolePermissions, id), clientRoles := WithoutRight(db.clientRoles, id))
    case AssignRole(user, role) =>
      db.(userRoles := Insert(db.userRoles, t, user, role, user in db.users && role in db.roles))
    case RevokeRole(user, role) => db.(userRoles := Remove(db.userRoles, t, user, role))
    case CreatePermission(id, name) =>
      if id in db.permissions || PermissionNameTaken(db.permissions, t, name, id) then db
      else db.(permissions := db.permissions[id := Permission(t, name)])
    case UpdatePermission(id, name) =>
      if id !in db.permissions || db.permissions[id].tenant != t
         || PermissionNameTaken(db.permissions, t, name, id) then db
      else db.(permissions := db.permissions[id := Permission(t, name)])
    case DeletePermission(id) =>
      if id !in db.permissions || db.permissions[id].tenant != t then db
      else db.(permissions := db.permissions - {id}, rolePermissions := WithoutRight(db.rolePermissions, id))
    case AssignPermission(role, permission) =>
      db.(rolePermissions := Insert(db.rolePermissions, t, role, permission,
                                    role in db.roles && permission in db.permissions))
    case RevokePermission(role, permission) => db.(rolePermissions := Remove(db.rolePermissions, t, role, permission))
    case AssignClientRole(client, role) =>
      db.(clientRoles := Insert(db.clientRoles, t, client, role, client in db.clients && role in db.roles))
    case RevokeClientRole(client, role) => db.(clientRoles := Remove(db.clientRoles, t, client, role))
  }

  // ── What an operation comes to, row by row ─────────────────────────────────

  predicate CreatesRole(db: Tables, t: Uuid, op: Op, r: Uuid) {
    op.CreateRole? && op.id == r && r !in db.roles && !RoleNameTaken(db.roles, t, op.name, r)
  }

  predicate RenamesRole(db: Tables, t: Uuid, op: Op, r: Uuid) {
    op.UpdateRole? && op.id == r && r in db.roles && db.roles[r].tenant == t && !RoleNameTaken(db.roles, t, op.name, r)
  }

  predicate DeletesRole(db: Tables, t: Uuid, op: Op, r: Uuid) {
    op.DeleteRole? && op.id == r && r in db.roles && db.roles[r].tenant == t
  }

  predicate CreatesPermission(db: Tables, t: Uuid, op: Op, p: Uuid) {
    op.CreatePermission? && op.id == p && p !in db.permissions && !PermissionNameTaken(db.permissions, t, op.name, p)
  }

  predicate RenamesPermission(db: Tables, t: Uuid, op: Op, p: Uuid) {
    op.UpdatePermission? && op.id == p && p in db.permissions && db.permissions[p].tenant == t
    && !PermissionNameTaken(db.permissions, t, op.name, p)
  }

  predicate DeletesPermission(db: Tables, t: Uuid, op: Op, p: Uuid) {
    op.DeletePermission? && op.id == p && p in db.permissions && db.permissions[p].tenant == t
  }

  ghost predicate RolesMoved(db: Tables, t: Uuid, op: Op, after: map<Uuid, Role>) {
    && (forall r :: r in after <==> (r in db.roles && !DeletesRole(db, t, op, r)) || CreatesRole(db, t, op, r))
    && (forall r :: r in after ==>
          after[r] == if CreatesRole(db, t, op, r) || RenamesRole(db, t, op, r) then Role(t, op.name) else db.roles[r])
  }

  ghost predicate PermissionsMoved(db: Tables, t: Uuid, op: Op, after: map<Uuid, Permission>) {
    && (forall p :: p in after
          <==> (p in db.permissions && !DeletesPermission(db, t, op, p)) || CreatesPermission(db, t, op, p))
    && (forall p :: p in after ==>
          after[p] == if CreatesPermission(db, t, op, p) || RenamesPermission(db, t, op, p) then Permission(t, op.name)
                      else db.permissions[p])
  }

  /** A user's role goes when it is revoked in the tenant of the link, or with the role. */
  predicate UserRoleGoes(db: Tables, t: Uuid, op: Op, k: Link) {
    || (op.RevokeRole? && k == Link(op.user, op.role) && Linked(db.userRoles, t, op.user, op.role))
    || DeletesRole(db, t, op, k.right)
  }

  predicate UserRoleComes(db: Tables, op: Op, k: Link) {
    op.AssignRole? && k == Link(op.user, op.role) && op.user in db.users && op.role in db.roles
  }

  ghost predicate UserRolesMoved(db: Tables, t: Uuid, op: Op, after: map<Link, Uuid>) {
    && (forall k :: k in after <==> (k in db.userRoles && !UserRoleGoes(db, t, op, k)) || UserRoleComes(db, op, k))
    && (forall k :: k in after ==> after[k] == if k in db.userRoles then db.userRoles[k] else t)
  }

  /** A grant goes when it is revoked in the tenant of the link, with the role, or with the permission. */
  predicate GrantGoes(db: Tables, t: Uuid, op: Op, k: Link) {
    || (op.RevokePermission? && k == Link(op.role, op.permission)
        && Linked(db.rolePermissions, t, op.role, op.permission))
    || DeletesRole(db, t, op, k.left) || DeletesPermission(db, t, op, k.right)
  }

  predicate GrantComes(db: Tables, op: Op, k: Link) {
    op.AssignPermission? && k == Link(op.role, op.permission) && op.role in db.roles && op.permission in db.permissions
  }

  ghost predicate GrantsMoved(db: Tables, t: Uuid, op: Op, after: map<Link, Uuid>) {
    && (forall k :: k in after <==> (k in db.rolePermissions && !GrantGoes(db, t, op, k)) || GrantComes(db, op, k))
    && (forall k :: k in after ==> after[k] == if k in db.rolePermissions then db.rolePermissions[k] else t)
  }

  predicate ClientRoleGoes(db: Tables, t: Uuid, op: Op, k: Link) {
    || (op.RevokeClientRole? && k == Link(op.client, op.role) && Linked(db.clientRoles, t, op.client, op.role))
    || DeletesRole(db, t, op, k.right)
  }

  predicate ClientRoleComes(db: Tables, op: Op, k: Link) {
    op.AssignClientRole? && k == Link(op.client, op.role) && op.client in db.clients && op.role in db.roles
  }

  ghost predicate ClientRolesMoved(db: Tables, t: Uuid, op: Op, after: map<Link, Uuid>) {
    && (forall k :: k in after
          <==> (k in db.clientRoles && !ClientRoleGoes(db, t, op, k)) || ClientRoleComes(db, op, k))
    && (forall k :: k in after ==> after[k] == if k in db.clientRoles then db.clientRoles[k] else t)
  }

  /** Which rows there are after an operation in a transaction of `t`, and what they hold. */
  ghost predicate Effect(db: Tables, t: Uuid, op: Op, after: Tables) {
    && after.users == db.users && after.clients == db.clients
    && RolesMoved(db, t, op, after.roles) && PermissionsMoved(db, t, op, after.permissions)
    && UserRolesMoved(db, t, op, after.userRoles) && GrantsMoved(db, t, op, after.rolePermissions)
    && ClientRolesMoved(db, t, op, after.clientRoles)
  }

  lemma NewRolesMove(db: Tables, t: Uuid, op: Op)
    requires op.CreateRole? || op.UpdateRole?
    ensures RolesMoved(db, t, op, Apply(db, t, op).roles)
  {
    if RoleNameTaken(db.roles, t, op.name, op.id) {
      assert Apply(db, t, op).roles == db.roles;
    }
  }

  lemma RolesMove(db: Tables, t: Uuid, op: Op)
    ensures RolesMoved(db, t, op, Apply(db, t, op).roles)
  {
    if op.CreateRole? || op.UpdateRole? {
      NewRolesMove(db, t, op);
    }
  }

  lemma NewPermissionsMove(db: Tables, t: Uuid, op: Op)
    requires op.CreatePermission? || op.UpdatePermission?
    ensures PermissionsMoved(db, t, op, Apply(db, t, op).permissions)
  {
    if PermissionNameTaken(db.permissions, t, op.name, op.id) {
      assert Apply(db, t, op).permissions == db.permissions;
    }
  }

  lemma PermissionsMove(db: Tables, t: Uuid, op: Op)
    ensures PermissionsMoved(db, t, op, Apply(db, t, op).permissions)
  {
    if op.CreatePermission? || op.UpdatePermission? {
      NewPermissionsMove(db, t, op);
    }
  }

  lemma UserRolesMove(db: Tables, t: Uuid, op: Op)
    ensures UserRolesMoved(db, t, op, Apply(db, t, op).userRoles)
  {}

  lemma ClientRolesMove(db: Tables, t: Uuid, op: Op)
    ensures ClientRolesMoved(db, t, op, Apply(db, t, op).clientRoles)
  {}

  lemma GrantsMove(db: Tables, t: Uuid, op: Op)
    ensures GrantsMoved(db, t, op, Apply(db, t, op).rolePermissions)
  {
    if op.DeleteRole? || op.DeletePermission? {
      DeletionsMoveGrants(db, t, op);
    }
  }

  lemma DeletionsMoveGrants(db: Tables, t: Uuid, op: Op)
    requires op.DeleteRole? || op.DeletePermission?
    ensures GrantsMoved(db, t, op, Apply(db, t, op).rolePermissions)
  {}

  /** Two tables of which the same is said are the same tables. */
  lemma EffectIsOne(db: Tables, t: Uuid, op: Op, a: Tables, b: Tables)
    requires Effect(db, t, op, a) && Effect(db, t, op, b)
    ensures a == b
  {
    assert a.roles == b.roles && a.permissions == b.permissions;
    assert a.userRoles == b.userRoles && a.rolePermissions == b.rolePermissions && a.clientRoles == b.clientRoles;
  }

  lemma ApplyIs(db: Tables, t: Uuid, op: Op, after: Tables)
    ensures after == Apply(db, t, op) <==> Effect(db, t, op, after)
  {
    RolesMove(db, t, op);
    PermissionsMove(db, t, op);
    UserRolesMove(db, t, op);
    ClientRolesMove(db, t, op);
    GrantsMove(db, t, op);
    if Effect(db, t, op, after) {
      EffectIsOne(db, t, op, after, Apply(db, t, op));
    }
  }

  // ── Laws of assignment ─────────────────────────────────────────────────────

  /** Assigning a role takes nothing away, and adds exactly what the role's permissions name,
      unless the insert fails. */
  lemma AssignOnlyGrows(db: Tables, t: Uuid, u: Uuid, role: Uuid, name: string)
    ensures var after := Apply(db, t, AssignRole(u, role));
            var inserted := u in db.users && role in db.roles && Link(u, role) !in db.userRoles;
            HasPermission(after, t, u, name)
            <==> HasPermission(db, t, u, name)
                 || (inserted && exists p :: Linked(db.rolePermissions, t, role, p) && p in db.permissions
                                             && db.permissions[p] == Permission(t, name))
  {
    var after := Apply(db, t, AssignRole(u, role));
    forall r, p ensures Grants(db, t, u, r, p) ==> Grants(after, t, u, r, p) {}
    if HasPermission(db, t, u, name) {
      var r :| Through(db, t, u, r, name);
      var p :| Grants(db, t, u, r, p) && db.permissions[p].name == name;
      assert Grants(after, t, u, r, p);
      assert Through(after, t, u, r, name);
    }
    if HasPermission(after, t, u, name) {
      var r :| Through(after, t, u, r, name);
      var p :| Grants(after, t, u, r, p) && after.permissions[p].name == name;
      if Linked(db.userRoles, t, u, r) {
        assert Grants(db, t, u, r, p);
        assert Through(db, t, u, r, name);
      }
    }
    if p :| u in db.users && role in db.roles && Link(u, role) !in db.userRoles
            && Linked(db.rolePermissions, t, role, p) && p in db.permissions
               && db.permissions[p] == Permission(t, name) {
      assert Grants(after, t, u, role, p);
      assert Through(after, t, u, role, name);
    }
  }

  /** Revoking a role removes exactly the names reachable through no other role. */
  lemma RevokeRemovesExactly(db: Tables, t: Uuid, u: Uuid, role: Uuid, name: string)
    ensures HasPermission(Apply(db, t, RevokeRole(u, role)), t, u, name)
            <==> exists r :: r != role && Through(db, t, u, r, name)
  {
    var after := Apply(db, t, RevokeRole(u, role));
    if HasPermission(after, t, u, name) {
      var r :| Through(after, t, u, r, name);
      var p :| Grants(after, t, u, r, p) && after.permissions[p].name == name;
      assert r != role && Grants(db, t, u, r, p);
      assert Through(db, t, u, r, name);
    }
    if r :| r != role && Through(db, t, u, r, name) {
      var p :| Grants(db, t, u, r, p) && db.permissions[p].name == name;
      assert Grants(after, t, u, r, p);
      assert Through(after, t, u, r, name);
    }
  }

  /** Granting a permission to a role and taking it back leave the same names as never granting it. */
  lemma GrantThenRevokeIsNothing(db: Tables, t: Uuid, role: Uuid, permission: Uuid)
    requires Link(role, permission) !in db.rolePermissions
    ensures Apply(Apply(db, t, AssignPermission(role, permission)), t, RevokePermission(role, permission)) == db
  {
    var after := Apply(Apply(db, t, AssignPermission(role, permission)), t, RevokePermission(role, permission));
    assert after.rolePermissions == db.rolePermissions;
  }

  /** The client-scoped role names are always among the user's realm roles. */
  lemma ClientRolesAreRealmRoles(db: Tables, t: Uuid, u: Uuid, client: Uuid, name: string)
    requires HasClientRole(db, t, u, client, name)
    ensures HasRole(db, t, u, name)
  {
    var r :| Bears(db, t, u, r) && Linked(db.clientRoles, t, client, r) && db.roles[r].name == name;
  }

  // ── Text order, sort and dedup ─────────────────────────────────────────────

  /** Code point by code point, as the bytes of UTF-8 compare. */
  predicate Leq(a: string, b: string) {
    a == "" || (b != "" && (a[0] < b[0] || (a[0] == b[0] && Leq(a[1..], b[1..]))))
  }

  predicate Below(a: string, b: string) { Leq(a, b) && a != b }

  lemma {:induction false} LeqTotal(a: string, b: string)
    ensures Leq(a, b) || Leq(b, a)
    ensures Leq(a, b) && Leq(b, a) ==> a == b
  {
    if a != "" && b != "" && a[0] == b[0] {
      LeqTotal(a[1..], b[1..]);
      assert a == [a[0]] + a[1..] && b == [b[0]] + b[1..];
    }
  }

  lemma {:induction false} LeqTransitive(a: string, b: string, c: string)
    requires Leq(a, b) && Leq(b, c)
    ensures Leq(a, c)
  {
    if a != "" && a[0] == b[0] == c[0] {
      LeqTransitive(a[1..], b[1..], c[1..]);
    }
  }

  ghost predicate Sorted(s: seq<string>) {
    forall i, k :: 0 <= i <= k < |s| ==> Leq(s[i], s[k])
  }

  ghost predicate Ascending(s: seq<string>) {
    forall i, k :: 0 <= i < k < |s| ==> Below(s[i], s[k])
  }

  lemma {:induction false} LeqReflexive(a: string)
    ensures Leq(a, a)
  {
    if a != "" {
      LeqReflexive(a[1..]);
    }
  }

  /** The position where `x` goes in a sorted list: after everything not above it. */
  method Position(s: seq<string>, x: string) returns (n: nat)
    requires Sorted(s)
    ensures n <= |s|
    ensures forall i :: 0 <= i < n ==> Leq(s[i], x)
    ensures forall i :: n <= i < |s| ==> Leq(x, s[i])
  {
    n := |s|;
    while n > 0 && !Leq(s[n - 1], x)
      invariant n <= |s|
      invariant forall i :: n <= i < |s| ==> Leq(x, s[i])
    {
      LeqTotal(s[n - 1], x);
      n := n - 1;
    }
    forall i | 0 <= i < n ensures Leq(s[i], x) {
      LeqTransitive(s[i], s[n - 1], x);
    }
  }

  lemma InsertedIsSorted(s: seq<string>, x: string, n: nat)
    requires Sorted(s) && n <= |s|
    requires forall i :: 0 <= i < n ==> Leq(s[i], x)
    requires forall i :: n <= i < |s| ==> Leq(x, s[i])
    ensures Sorted(s[..n] + [x] + s[n..])
  {
    LeqReflexive(x);
    var t := s[..n] + [x] + s[n..];
    forall i, k | 0 <= i <= k < |t| ensures Leq(t[i], t[k]) {
      if i < n && k > n {
        assert t[i] == s[i] && t[k] == s[k - 1];
      }
    }
  }

  method Sort(names: seq<string>) returns (sorted: seq<string>)
    ensures Sorted(sorted) && multiset(sorted) == multiset(names)
  {
    sorted := [];
    for i := 0 to |names|
      invariant Sorted(sorted) && multiset(sorted) == multiset(names[..i])
    {
      var n := Position(sorted, names[i]);
      InsertedIsSorted(sorted, names[i], n);
      assert sorted == sorted[..n] + sorted[n..];
      assert names[..i + 1] == names[..i] + [names[i]];
      sorted := sorted[..n] + [names[i]] + sorted[n..];
    }
    assert names[..|names|] == names;
  }

  lemma AppendAscends(s: seq<string>, x: string)
    requires Ascending(s) && (s != [] ==> Below(s[|s| - 1], x))
    ensures Ascending(s + [x])
  {
    forall i | 0 <= i < |s| ensures Below(s[i], x) {
      if i < |s| - 1 {
        LeqTransitive(s[i], s[|s| - 1], x);
        LeqTotal(s[i], s[|s| - 1]);
      }
    }
  }

  /** Drops every element equal to the one kept before it. */
  method Dedup(s: seq<string>) returns (out: seq<string>)
    requires Sorted(s)
    ensures Ascending(out) && forall x :: x in out <==> x in s
  {
    out := [];
    for i := 0 to |s|
      invariant Ascending(out) && (forall x :: x in out <==> x in s[..i])
      invariant if i == 0 then out == [] else out != [] && out[|out| - 1] == s[i - 1]
    {
      assert s[..i + 1] == s[..i] + [s[i]];
      if out == [] || out[|out| - 1] != s[i] {
        if out != [] {
          assert Leq(s[i - 1], s[i]);
        }
        AppendAscends(out, s[i]);
        out := out + [s[i]];
      }
    }
    assert s[..|s|] == s;
  }

  // ── The store ──────────────────────────────────────────────────────────────

  class Store {
    var users: set<Uuid>
    var clients: set<Uuid>
    var roles: map<Uuid, Role>
    var permissions: map<Uuid, Permission>
    var userRoles: map<Link, Uuid>
    var rolePermissions: map<Link, Uuid>
    var clientRoles: map<Link, Uuid>

    function Snapshot(): Tables
      reads this
    {
      Tables(users, clients, roles, permissions, userRoles, rolePermissions, clientRoles)
    }

    /** Names of the rows a query selects, in whatever order the database returns them. */
    method PermissionNames(ids: set<Uuid>, t: Uuid) returns (names: seq<string>)
      ensures forall n :: n in names <==> exists p :: p in ids && p in permissions && permissions[p] == Permission(t, n)
    {
      names := [];
      var rest := ids;
      while rest != {}
        invariant rest <= ids
        invariant forall n :: n in names
                    <==> exists p :: p in ids - rest && p in permissions && permissions[p] == Permission(t, n)
      {
        var p :| p in rest;
        ghost var before, was := names, rest;
        rest := rest - {p};
        if p in permissions && permissions[p].tenant == t {
          names := names + [permissions[p].name];
        }
        forall n ensures n in names
          <==> exists q :: q in ids - rest && q in permissions && permissions[q] == Permission(t, n) {
          if n in names && n !in before {
            assert p in ids - rest && permissions[p] == Permission(t, n);
          }
          if q :| q in ids - rest && q in permissions && permissions[q] == Permission(t, n) {
            assert q == p || q in ids - was;
          }
        }
      }
      assert ids - rest == ids;
    }

    method RoleNames(ids: set<Uuid>, t: Uuid) returns (names: seq<string>)
      ensures forall n :: n in names <==> exists r :: r in ids && r in roles && roles[r] == Role(t, n)
    {
      names := [];
      var rest := ids;
      while rest != {}
        invariant rest <= ids
        invariant forall n :: n in names <==> exists r :: r in ids - rest && r in roles && roles[r] == Role(t, n)
      {
        var r :| r in rest;
        ghost var before, was := names, rest;
        rest := rest - {r};
        if r in roles && roles[r].tenant == t {
          names := names + [roles[r].name];
        }
        forall n ensures n in names <==> exists q :: q in ids - rest && q in roles && roles[q] == Role(t, n) {
          if n in names && n !in before {
            assert r in ids - rest && roles[r] == Role(t, n);
          }
          if q :| q in ids - rest && q in roles && roles[q] == Role(t, n) {
            assert q == r || q in ids - was;
          }
        }
      }
      assert ids - rest == ids;
    }

    /** The three queries, then sort and dedup: strictly ascending, and exactly what the tables grant. */
    method ListPermissionNames(u: Uuid, t: Uuid) returns (names: seq<string>)
      ensures Ascending(names)
      ensures forall n :: n in names <==> HasPermission(Snapshot(), t, u, n)
    {
      var roleIds := set k | k in userRoles && k.left == u && userRoles[k] == t :: k.right;
      var permissionIds := set k | k in rolePermissions && k.left in roleIds && rolePermissions[k] == t :: k.right;
      ghost var db := Snapshot();
      forall n ensures HasPermission(db, t, u, n)
                       <==> exists p :: p in permissionIds && p in permissions && permissions[p] == Permission(t, n) {
        if HasPermission(db, t, u, n) {
          var r :| Through(db, t, u, r, n);
          var p :| Grants(db, t, u, r, p) && db.permissions[p].name == n;
          assert Link(u, r).right in roleIds;
          assert Link(r, p).right in permissionIds;
        }
        if p :| p in permissionIds && p in permissions && permissions[p] == Permission(t, n) {
          var k :| k in rolePermissions && k.left in roleIds && rolePermissions[k] == t && k.right == p;
          var l :| l in userRoles && l.left == u && userRoles[l] == t && l.right == k.left;
          assert l == Link(u, k.left) && k == Link(k.left, p);
          assert Grants(db, t, u, k.left, p);
          assert Through(db, t, u, k.left, n);
        }
      }
      if roleIds == {} || permissionIds == {} {
        return [];
      }
      var found := PermissionNames(permissionIds, t);
      var sorted := Sort(found);
      assert forall x :: x in sorted <==> x in multiset(sorted);
      assert forall x :: x in found <==> x in multiset(found);
      names := Dedup(sorted);
    }

    method ListRoleNames(u: Uuid, t: Uuid) returns (names: seq<string>)
      ensures forall n :: n in names <==> HasRole(Snapshot(), t, u, n)
    {
      var roleIds := set k | k in userRoles && k.left == u && userRoles[k] == t :: k.right;
      ghost var db := Snapshot();
      forall n ensures HasRole(db, t, u, n) <==> exists r :: r in roleIds && r in roles && roles[r] == Role(t, n) {
        if HasRole(db, t, u, n) {
          var r :| Bears(db, t, u, r) && db.roles[r].name == n;
          assert Link(u, r).right in roleIds;
        }
        if r :| r in roleIds && r in roles && roles[r] == Role(t, n) {
          assert Bears(db, t, u, r);
        }
      }
      if roleIds == {} {
        return [];
      }
      names := RoleNames(roleIds, t);
    }

    /** The user's role ids intersected with the client's. */
    method ListClientRoleNames(u: Uuid, client: Uuid, t: Uuid) returns (names: seq<string>)
      ensures forall n :: n in names <==> HasClientRole(Snapshot(), t, u, client, n)
    {
      var userRoleIds := set k | k in userRoles && k.left == u && userRoles[k] == t :: k.right;
      var clientRoleIds := set k | k in clientRoles && k.left == client && clientRoles[k] == t :: k.right;
      var both := userRoleIds * clientRoleIds;
      ghost var db := Snapshot();
      forall n ensures HasClientRole(db, t, u, client, n)
        <==> exists r :: r in both && r in roles && roles[r] == Role(t, n) {
        if HasClientRole(db, t, u, client, n) {
          var r :| Bears(db, t, u, r) && Linked(db.clientRoles, t, client, r) && db.roles[r].name == n;
          assert Link(u, r).right in userRoleIds && Link(client, r).right in clientRoleIds;
        }
        if r :| r in both && r in roles && roles[r] == Role(t, n) {
          var k :| k in clientRoles && k.left == client && clientRoles[k] == t && k.right == r;
          assert k == Link(client, r);
          assert Bears(db, t, u, r);
        }
      }
      if both == {} {
        return [];
      }
      names := RoleNames(both, t);
    }

    /** One administrative operation in a transaction of tenant `t`. */
    method Execute(t: Uuid, op: Op)
      modifies this
      ensures Effect(old(Snapshot()), t, op, Snapshot())
    {
      ApplyIs(old(Snapshot()), t, op, Apply(old(Snapshot()), t, op));
      match op
      case CreateRole(id, name) =>
        if id !in roles && !RoleNameTaken(roles, t, name, id) {
          roles := roles[id := Role(t, name)];
        }
      case UpdateRole(id, name) =>
        if id in roles && roles[id].tenant == t && !RoleNameTaken(roles, t, name, id) {
          roles := roles[id := roles[id].(name := name)];
        }
      case DeleteRole(id) =>
        if id in roles && roles[id].tenant == t {
          roles := roles - {id};
          userRoles := WithoutRight(userRoles, id);
          rolePermissions := WithoutLeft(rolePermissions, id);
          clientRoles := WithoutRight(clientRoles, id);
        }
      case AssignRole(user, role) =>
        userRoles := Insert(userRoles, t, user, role, user in users && role in roles);
      case RevokeRole(user, role) =>
        userRoles := Remove(userRoles, t, user, role);
      case CreatePermission(id, name) =>
        if id !in permissions && !PermissionNameTaken(permissions, t, name, id) {
          permissions := permissions[id := Permission(t, name)];
        }
      case UpdatePermission(id, name) =>
        if id in permissions && permissions[id].tenant == t && !PermissionNameTaken(permissions, t, name, id) {
          permissions := permissions[id := permissions[id].(name := name)];
        }
      case DeletePermission(id) =>
        if id in permissions && permissions[id].tenant == t {
          permissions := permissions - {id};
          rolePermissions := WithoutRight(rolePermissions, id);
        }
      case AssignPermission(role, permission) =>
        rolePermissions := Insert(rolePermissions, t, role, permission, role in roles && permission in permissions);
      case RevokePermission(role, permission) =>
        rolePermissions := Remove(rolePermissions, t, role, permission);
      case AssignClientRole(client, role) =>
        clientRoles := Insert(clientRoles, t, client, role, client in clients && role in roles);
      case RevokeClientRole(client, role) =>
        clientRoles := Remove(clientRoles, t, client, role);
    }
  }
}
