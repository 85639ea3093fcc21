/** Roles, permissions and the two relations between users, roles and permissions (openaimp-backend,
    RbacServiceImpl and RbacBootstrapRunner). Each service call is a transaction. */
module Rbac {
  import opened Results
  import opened Texts
  import opened SortedLists

  datatype Error = NoSuchUser | UserExists | CodeMissing | NotFound | NotBound | CodeTaken | IsBuiltin | StillBound | NullCode

  datatype Entry = Entry(code: string, name: string, description: Option<string>, builtin: bool)

  /** A table of roles or of permissions; ids are handed out in ascending order. */
  datatype Registry = Registry(rows: map<int, Entry>, next: int)

  /** Rows of (user, role) or of (role, permission), oldest first. */
  type Relation = seq<(int, int)>

  /** `users` are the account numbers in ascending order. */
  datatype Store = Store(
    users: seq<int>, roles: Registry, permissions: Registry,
    userRoles: Relation, rolePermissions: Relation)

  // ----- relations -----

  function Select(rel: Relation, p: ((int, int)) -> bool): (selected: Relation)
    ensures forall r :: r in selected <==> r in rel && p(r)
    ensures Unique(rel) ==> Unique(selected)
  {
    if rel == [] then []
    else
      var init, last := rel[..|rel| - 1], rel[|rel| - 1];
      assert rel == init + [last];
      Select(init, p) + if p(last) then [last] else []
  }

  /** ensureUserRole and ensureRolePermission. */
  function Ensure(rel: Relation, key: int, id: int): (ensured: Relation)
    ensures forall r :: r in ensured <==> r in rel || r == (key, id)
    ensures Unique(rel) ==> Unique(ensured)
  {
    if (key, id) in rel then rel else rel + [(key, id)]
  }

  function EnsureAll(rel: Relation, key: int, ids: seq<int>): (ensured: Relation)
    ensures forall r :: r in ensured <==> r in rel || (r.0 == key && r.1 in ids)
    ensures Unique(rel) ==> Unique(ensured)
  {
    if ids == [] then rel
    else
      assert ids == ids[..|ids| - 1] + [ids[|ids| - 1]];
      Ensure(EnsureAll(rel, key, ids[..|ids| - 1]), key, ids[|ids| - 1])
  }

  /** Drop the key's rows outside the target ids, then add the missing ones. */
  function Reassign(rel: Relation, key: int, ids: seq<int>): (result: Relation)
    ensures forall r :: r in result <==> if r.0 == key then r.1 in ids else r in rel
    ensures Unique(rel) ==> Unique(result)
  {
    EnsureAll(Select(rel, (r: (int, int)) => r.0 != key || r.1 in ids), key, ids)
  }

  function Seconds(rel: Relation): (ids: seq<int>)
    ensures |ids| == |rel|
    ensures forall id :: id in ids <==> exists r :: r in rel && r.1 == id
  {
    var ids := seq(|rel|, i requires 0 <= i < |rel| => rel[i].1);
    assert forall i :: 0 <= i < |rel| ==> ids[i] == rel[i].1;
    ids
  }

  function RowsOf(rel: Relation, key: int): Relation {
    Select(rel, (r: (int, int)) => r.0 == key)
  }

  // ----- registries -----

  /** Ids are below the next one, and codes are unique. */
  ghost predicate RegistrySound(reg: Registry) {
    && reg.next >= 1 && (forall id :: id in reg.rows ==> 1 <= id < reg.next)
    && (forall i, j :: i in reg.rows && j in reg.rows && reg.rows[i].code == reg.rows[j].code ==> i == j)
  }

  function FindBelow(reg: Registry, code: string, n: nat): (id: Option<int>)
    ensures id.Some? ==> id.value in reg.rows && reg.rows[id.value].code == code
    ensures id.None? ==> forall k :: 0 <= k < n && k in reg.rows ==> reg.rows[k].code != code
  {
    if n == 0 then None
    else
      var earlier := FindBelow(reg, code, n - 1);
      if earlier.Some? then earlier
      else if n - 1 in reg.rows && reg.rows[n - 1].code == code then Some(n - 1)
      else None
  }

  /** findByCode. */
  function FindByCode(reg: Registry, code: string): (id: Option<int>)
    ensures id.Some? ==> id.value in reg.rows && reg.rows[id.value].code == code
  {
    FindBelow(reg, code, if reg.next < 0 then 0 else reg.next)
  }

  lemma FoundByCode(reg: Registry, code: string, id: int)
    requires RegistrySound(reg) && id in reg.rows && reg.rows[id].code == code
    ensures FindByCode(reg, code) == Some(id)
  {
    assert FindBelow(reg, code, reg.next).Some?;
  }

  lemma NotFoundByCode(reg: Registry, code: string)
    requires RegistrySound(reg) && FindByCode(reg, code).None?
    ensures forall id :: id in reg.rows ==> reg.rows[id].code != code
  {
  }

  function FindAllBelow(reg: Registry, codes: seq<string>, n: nat): (ids: seq<int>)
    ensures forall id :: id in ids <==> 0 <= id < n && id in reg.rows && reg.rows[id].code in codes
  {
    if n == 0 then []
    else
      FindAllBelow(reg, codes, n - 1)
      + if n - 1 in reg.rows && reg.rows[n - 1].code in codes then [n - 1] else []
  }

  /** findByCodeIn, in the order of the ids. */
  function FindByCodeIn(reg: Registry, codes: seq<string>): seq<int> {
    FindAllBelow(reg, codes, if reg.next < 0 then 0 else reg.next)
  }

  lemma FoundByCodeIn(reg: Registry, codes: seq<string>)
    requires RegistrySound(reg)
    ensures forall id :: id in FindByCodeIn(reg, codes) <==> id in reg.rows && reg.rows[id].code in codes
  {
  }

  /** The codes of the ids that exist: map to the entity, drop nulls, map to the code. */
  function CodesAt(reg: Registry, ids: seq<int>): (codes: seq<string>)
    ensures forall c :: c in codes <==> exists id :: id in ids && id in reg.rows && reg.rows[id].code == c
  {
    if ids == [] then []
    else
      var init, last := ids[..|ids| - 1], ids[|ids| - 1];
      assert ids == init + [last];
      CodesAt(reg, init) + if last in reg.rows then [reg.rows[last].code] else []
  }

  function Insert(reg: Registry, e: Entry): Registry {
    Registry(reg.rows[reg.next := e], reg.next + 1)
  }

  // ----- queries -----

  function RoleCodes(s: Store, user: int): seq<string> {
    var rows := RowsOf(s.userRoles, user);
    if rows == [] then [] else Sorted(Distinct(CodesAt(s.roles, Seconds(rows))))
  }

  function PermissionCodes(s: Store, user: int): seq<string> {
    var rows := RowsOf(s.userRoles, user);
    if rows == [] then []
    else
      var roleIds := Distinct(Seconds(rows));
      var granted := Select(s.rolePermissions, (r: (int, int)) => r.0 in roleIds);
      if granted == [] then [] else Sorted(Distinct(CodesAt(s.permissions, Seconds(granted))))
  }

  /** getRolePermissionCodesByRoleId. */
  function RolePermissionCodes(s: Store, role: int): seq<string> {
    Sorted(Distinct(CodesAt(s.permissions, Seconds(RowsOf(s.rolePermissions, role)))))
  }

  /** One row of getRolePermissionCodesMap's collector: its permission's code joins the role's TreeSet. A
      missing permission is a null, which TreeSet.add throws on. */
  function AddRow(reg: Registry, groups: map<int, seq<string>>, row: (int, int)): Result<map<int, seq<string>>, Error> {
    if row.1 !in reg.rows then Err(NullCode)
    else Ok(groups[row.0 := TreeAdd(GroupOf(groups, row.0), reg.rows[row.1].code)])
  }

  /** getOrDefault with an empty list. */
  function GroupOf(groups: map<int, seq<string>>, role: int): seq<string> {
    if role in groups then groups[role] else []
  }

  /** The single pass over all rows that groups their permissions' codes by role. */
  function Group(reg: Registry, rel: Relation): Result<map<int, seq<string>>, Error> {
    if rel == [] then Ok(map[])
    else
      var groups :- Group(reg, rel[..|rel| - 1]);
      AddRow(reg, groups, rel[|rel| - 1])
  }

  datatype RoleView = RoleView(role: Entry, permissions: seq<string>)

  /** buildRoleView: an empty list of codes is looked up again. */
  function BuildRoleView(s: Store, id: int, codes: seq<string>): RoleView
    requires id in s.roles.rows
  {
    RoleView(s.roles.rows[id], if codes == [] then RolePermissionCodes(s, id) else codes)
  }

  function RoleViewsBelow(s: Store, groups: map<int, seq<string>>, n: nat): seq<RoleView> {
    if n == 0 then []
    else
      RoleViewsBelow(s, groups, n - 1)
      + if n - 1 in s.roles.rows then [BuildRoleView(s, n - 1, GroupOf(groups, n - 1))] else []
  }

  /** The role views of getCatalog. */
  function Catalog(s: Store): Result<seq<RoleView>, Error> {
    var groups :- Group(s.permissions, s.rolePermissions);
    Ok(RoleViewsBelow(s, groups, if s.roles.next < 0 then 0 else s.roles.next))
  }

  /** The role has a row for an existing permission with this code. */
  ghost predicate Grants(s: Store, role: int, code: string) {
    exists p :: (role, p) in s.rolePermissions && p in s.permissions.rows && s.permissions.rows[p].code == code
  }

  lemma RowIds(rel: Relation, key: int)
    ensures forall id :: id in Seconds(RowsOf(rel, key)) <==> (key, id) in rel
  {
    forall id ensures id in Seconds(RowsOf(rel, key)) <==> (key, id) in rel {
      if (key, id) in rel {
        assert (key, id) in RowsOf(rel, key);
      }
    }
  }

  /** A role's permission list is ascending, without duplicates, and holds exactly the codes it
      grants. */
  lemma RolePermissionsAreExact(s: Store, role: int)
    ensures Ascending(RolePermissionCodes(s, role))
    ensures forall c :: c in RolePermissionCodes(s, role) <==> Grants(s, role, c)
  {
    SortedDistinctIsTree(CodesAt(s.permissions, Seconds(RowsOf(s.rolePermissions, role))));
    RowIds(s.rolePermissions, role);
    hide Ascending, Sorted, Distinct, TreeOf;
  }

  /** A user's role list is ascending and holds exactly the codes of the roles bound to it. */
  lemma UserRolesAreExact(s: Store, user: int)
    ensures Ascending(RoleCodes(s, user))
    ensures forall c :: c in RoleCodes(s, user) <==> BoundTo(s, user, c)
  {
    var rows := RowsOf(s.userRoles, user);
    RowIds(s.userRoles, user);
    SortedDistinctIsTree(CodesAt(s.roles, Seconds(rows)));
    hide Sorted, Distinct, TreeOf, Below;
    if rows == [] {
      forall c ensures !BoundTo(s, user, c) {
        assert forall r :: (user, r) in s.userRoles ==> r in Seconds(rows);
      }
    }
  }

  ghost predicate BoundTo(s: Store, user: int, code: string) {
    exists r :: (user, r) in s.userRoles && r in s.roles.rows && s.roles.rows[r].code == code
  }

  ghost predicate GrantedTo(s: Store, user: int, code: string) {
    exists r :: (user, r) in s.userRoles && Grants(s, r, code)
  }

  lemma GrantedRows(s: Store, user: int, granted: Relation)
    requires granted == Select(s.rolePermissions, (r: (int, int)) => r.0 in Distinct(Seconds(RowsOf(s.userRoles, user))))
    ensures forall c :: c in CodesAt(s.permissions, Seconds(granted)) <==> GrantedTo(s, user, c)
  {
    hide Select, CodesAt, Distinct, Seconds;
    RowIds(s.userRoles, user);
    assert forall r, p :: (r, p) in granted <==> (r, p) in s.rolePermissions && (user, r) in s.userRoles;
    forall c ensures c in CodesAt(s.permissions, Seconds(granted)) <==> GrantedTo(s, user, c) {
      if GrantedTo(s, user, c) {
        var r :| (user, r) in s.userRoles && Grants(s, r, c);
        var p :| (r, p) in s.rolePermissions && p in s.permissions.rows && s.permissions.rows[p].code == c;
        assert (r, p) in granted;
        assert p in Seconds(granted);
      }
      if c in CodesAt(s.permissions, Seconds(granted)) {
        var p :| p in Seconds(granted) && p in s.permissions.rows && s.permissions.rows[p].code == c;
        var row :| row in granted && row.1 == p;
        assert (row.0, p) in granted;
        assert Grants(s, row.0, c);
      }
    }
  }

  /** The early returns for users without rows change nothing. */
  lemma PermissionCodesAre(s: Store, user: int, granted: Relation)
    requires granted == Select(s.rolePermissions, (r: (int, int)) => r.0 in Distinct(Seconds(RowsOf(s.userRoles, user))))
    ensures PermissionCodes(s, user) == Sorted(Distinct(CodesAt(s.permissions, Seconds(granted))))
  {
    var rows := RowsOf(s.userRoles, user);
    if granted == [] {
      assert Seconds(granted) == [];
    } else {
      assert granted[0] in granted;
    }
    if rows == [] {
      assert Seconds(rows) == [];
    }
    hide Sorted, RowsOf, Select;
  }

  /** A user's permission list is the ascending, duplicate-free union of the lists of its roles. */
  lemma UserPermissionsAreUnion(s: Store, user: int)
    ensures Ascending(PermissionCodes(s, user))
    ensures forall c :: (c in PermissionCodes(s, user)
                         <==> exists r :: (user, r) in s.userRoles && c in RolePermissionCodes(s, r))
  {
    var granted := Select(s.rolePermissions, (r: (int, int)) => r.0 in Distinct(Seconds(RowsOf(s.userRoles, user))));
    PermissionCodesAre(s, user, granted);
    GrantedRows(s, user, granted);
    SortedDistinctIsTree(CodesAt(s.permissions, Seconds(granted)));
    hide *;
    forall c ensures c in PermissionCodes(s, user) <==> exists r :: (user, r) in s.userRoles && c in RolePermissionCodes(s, r) {
      UnionOver(s, user, c);
      InTree(CodesAt(s.permissions, Seconds(granted)), c);
    }
  }

  lemma InTree(codes: seq<string>, c: string)
    ensures c in TreeOf(codes) <==> c in codes
  {
    SortedDistinctIsTree(codes);
  }

  lemma UnionOver(s: Store, user: int, c: string)
    ensures GrantedTo(s, user, c) <==> exists r :: (user, r) in s.userRoles && c in RolePermissionCodes(s, r)
  {
    forall r ensures c in RolePermissionCodes(s, r) <==> Grants(s, r, c) {
      RolePermissionsAreExact(s, r);
    }
    hide RolePermissionCodes, Grants;
  }

  /** The views the per-role query would give. */
  function PerRoleViews(s: Store, n: nat): seq<RoleView> {
    if n == 0 then []
    else
      PerRoleViews(s, n - 1)
      + if n - 1 in s.roles.rows then [RoleView(s.roles.rows[n - 1], RolePermissionCodes(s, n - 1))] else []
  }

  /** What a role's TreeSet should hold. */
  function TreeFor(reg: Registry, rel: Relation, role: int): seq<string> {
    TreeOf(CodesAt(reg, Seconds(RowsOf(rel, role))))
  }

  lemma SecondsAppend(rel: Relation, row: (int, int))
    ensures Seconds(rel + [row]) == Seconds(rel) + [row.1]
  {
    assert forall i :: 0 <= i < |rel| ==> (rel + [row])[i] == rel[i];
  }

  lemma TreeGrows(reg: Registry, rel: Relation, row: (int, int), role: int)
    requires row.1 in reg.rows
    ensures TreeFor(reg, rel + [row], role)
         == if row.0 == role then TreeAdd(TreeFor(reg, rel, role), reg.rows[row.1].code) else TreeFor(reg, rel, role)
  {
    var rows, codes := RowsOf(rel, role), CodesAt(reg, Seconds(RowsOf(rel, role)));
    var code := reg.rows[row.1].code;
    assert (rel + [row])[..|rel|] == rel;
    assert RowsOf(rel + [row], role) == rows + if row.0 == role then [row] else [];
    if row.0 == role {
      SecondsAppend(rows, row);
      hide RowsOf, Select, Seconds, TreeAdd;
      var ids := Seconds(rows);
      assert (ids + [row.1])[..|ids|] == ids;
      assert CodesAt(reg, ids + [row.1]) == codes + [code];
      assert (codes + [code])[..|codes|] == codes;
      hide CodesAt;
      assert TreeOf(codes + [code]) == TreeAdd(TreeOf(codes), code);
    } else {
      assert rows + [] == rows;
    }
  }

  /** The pass over the rows fails exactly when some row refers to a missing permission; otherwise every
      role's entry, or the default for a role without rows, is its TreeSet of codes. */
  lemma {:induction false} GroupIsExact(reg: Registry, rel: Relation)
    ensures Group(reg, rel).Err? <==> exists r :: r in rel && r.1 !in reg.rows
    ensures Group(reg, rel).Ok? ==> forall role :: GroupOf(Group(reg, rel).value, role) == TreeFor(reg, rel, role)
  {
    hide TreeFor, TreeAdd;
    if rel == [] {
      forall role ensures TreeFor(reg, rel, role) == [] {
        EmptyTree(reg, role);
      }
    } else {
      var init, last := rel[..|rel| - 1], rel[|rel| - 1];
      assert rel == init + [last];
      GroupIsExact(reg, init);
      if last.1 in reg.rows {
        forall role ensures TreeFor(reg, rel, role)
          == if last.0 == role then TreeAdd(TreeFor(reg, init, role), reg.rows[last.1].code) else TreeFor(reg, init, role)
        {
          TreeGrows(reg, init, last, role);
        }
      }
    }
  }

  lemma EmptyTree(reg: Registry, role: int)
    ensures TreeFor(reg, [], role) == []
  {
    assert RowsOf([], role) == [];
    assert Seconds([]) == [];
  }

  lemma {:induction false} ViewsAgree(s: Store, groups: map<int, seq<string>>, n: nat)
    requires Group(s.permissions, s.rolePermissions) == Ok(groups)
    ensures RoleViewsBelow(s, groups, n) == PerRoleViews(s, n)
  {
    if n > 0 {
      ViewsAgree(s, groups, n - 1);
      if n - 1 in s.roles.rows {
        ViewAgrees(s, groups, n - 1);
      }
      hide Group, GroupOf, RolePermissionCodes, BuildRoleView;
    }
  }

  lemma ViewAgrees(s: Store, groups: map<int, seq<string>>, id: int)
    requires Group(s.permissions, s.rolePermissions) == Ok(groups) && id in s.roles.rows
    ensures BuildRoleView(s, id, GroupOf(groups, id)) == RoleView(s.roles.rows[id], RolePermissionCodes(s, id))
  {
    hide Group, GroupOf, RolePermissionCodes;
    GroupedAgree(s, groups, id);
  }

  /** What the pass collects for a role is what the per-role query returns: a TreeSet filled among all the
      other roles' rows against a filter, distinct and sorted. */
  lemma GroupedAgree(s: Store, groups: map<int, seq<string>>, role: int)
    requires Group(s.permissions, s.rolePermissions) == Ok(groups)
    ensures GroupOf(groups, role) == RolePermissionCodes(s, role)
  {
    GroupIsExact(s.permissions, s.rolePermissions);
    SortedDistinctIsTree(CodesAt(s.permissions, Seconds(RowsOf(s.rolePermissions, role))));
    hide Group, GroupOf, Sorted, Distinct, TreeOf, CodesAt, Seconds, RowsOf;
  }

  /** The catalogue fails exactly when a role-permission row refers to a missing permission; otherwise it
      lists every role in the order of the ids with exactly the permission list of the per-role query. */
  lemma CatalogAgrees(s: Store)
    requires s.roles.next >= 0
    ensures Catalog(s).Err? <==> exists r :: r in s.rolePermissions && r.1 !in s.permissions.rows
    ensures Catalog(s).Ok? ==> Catalog(s).value == PerRoleViews(s, s.roles.next)
  {
    GroupIsExact(s.permissions, s.rolePermissions);
    var groups := Group(s.permissions, s.rolePermissions);
    if groups.Ok? {
      ViewsAgree(s, groups.value, s.roles.next);
    }
    hide Group, RoleViewsBelow, PerRoleViews, TreeFor, GroupOf;
  }

  // ----- the service calls -----

  function NormalizeCode(code: Option<string>): Result<string, Error> {
    if code.None? || Trim(code.value) == [] then Err(CodeMissing) else Ok(Trim(code.value))
  }

  function NormalizeNullableText(text: Option<string>): Option<string> {
    if text.None? || Trim(text.value) == [] then None else Some(Trim(text.value))
  }

  function TrimmedCodes(codes: seq<Option<string>>): (trimmed: seq<string>)
    ensures forall c :: c in trimmed <==> c != [] && exists o :: o in codes && o.Some? && c == Trim(o.value)
  {
    if codes == [] then []
    else
      var init, last := codes[..|codes| - 1], codes[|codes| - 1];
      assert codes == init + [last];
      TrimmedCodes(init) + if last.Some? && Trim(last.value) != [] then [Trim(last.value)] else []
  }

  function NormalizeCodes(codes: Option<seq<Option<string>>>): Result<seq<string>, Error> {
    if codes.None? || codes.value == [] then Err(CodeMissing)
    else
      var normalized := Distinct(TrimmedCodes(codes.value));
      if normalized == [] then Err(CodeMissing) else Ok(normalized)
  }

  function GetOrThrow(reg: Registry, code: string): Result<int, Error> {
    var id := FindByCode(reg, code);
    if id.None? then Err(NotFound) else Ok(id.value)
  }

  /** findByCodeIn followed by validateAllFound. */
  function FindAllOrThrow(reg: Registry, codes: seq<string>): Result<seq<int>, Error> {
    var ids := FindByCodeIn(reg, codes);
    var found := CodesAt(reg, ids);
    if forall i :: 0 <= i < |codes| ==> codes[i] in found then Ok(ids) else Err(NotFound)
  }

  function AssignRoles(s: Store, user: int, codes: Option<seq<Option<string>>>): Result<Store, Error> {
    if user !in s.users then Err(NoSuchUser)
    else
      var normalized :- NormalizeCodes(codes);
      var ids :- FindAllOrThrow(s.roles, normalized);
      Ok(s.(userRoles := Reassign(s.userRoles, user, ids)))
  }

  function RevokeRole(s: Store, user: int, code: Option<string>): Result<Store, Error> {
    if user !in s.users then Err(NoSuchUser)
    else
      var normalized :- NormalizeCode(code);
      var id :- GetOrThrow(s.roles, normalized);
      if (user, id) !in s.userRoles then Err(NotBound)
      else Ok(s.(userRoles := Select(s.userRoles, (r: (int, int)) => r != (user, id))))
  }

  function AssignPermissions(s: Store, role: Option<string>, codes: Option<seq<Option<string>>>): Result<Store, Error> {
    var roleCode :- NormalizeCode(role);
    var normalized :- NormalizeCodes(codes);
    var id :- GetOrThrow(s.roles, roleCode);
    var ids :- FindAllOrThrow(s.permissions, normalized);
    Ok(s.(rolePermissions := Reassign(s.rolePermissions, id, ids)))
  }

  function RevokePermission(s: Store, role: Option<string>, code: Option<string>): Result<Store, Error> {
    var roleCode :- NormalizeCode(role);
    var id :- GetOrThrow(s.roles, roleCode);
    var normalized :- NormalizeCode(code);
    var permission :- GetOrThrow(s.permissions, normalized);
    if (id, permission) !in s.rolePermissions then Err(NotBound)
    else Ok(s.(rolePermissions := Select(s.rolePermissions, (r: (int, int)) => r != (id, permission))))
  }

  function CreateEntry(reg: Registry, code: Option<string>, name: Option<string>, description: Option<string>): Result<Registry, Error> {
    var normalizedCode :- NormalizeCode(code);
    var normalizedName :- NormalizeCode(name);
    if FindByCode(reg, normalizedCode).Some? then Err(CodeTaken)
    else Ok(Insert(reg, Entry(normalizedCode, normalizedName, NormalizeNullableText(description), false)))
  }

  function CreateRole(s: Store, code: Option<string>, name: Option<string>, description: Option<string>): Result<Store, Error> {
    var roles :- CreateEntry(s.roles, code, name, description);
    Ok(s.(roles := roles))
  }

  function CreatePermission(s: Store, code: Option<string>, name: Option<string>, description: Option<string>): Result<Store, Error> {
    var permissions :- CreateEntry(s.permissions, code, name, description);
    Ok(s.(permissions := permissions))
  }

  predicate Mentions(rel: Relation, id: int) {
    exists r :: r in rel && r.1 == id
  }

  function DeleteRole(s: Store, code: Option<string>): Result<Store, Error> {
    var normalized :- NormalizeCode(code);
    var id :- GetOrThrow(s.roles, normalized);
    if s.roles.rows[id].builtin then Err(IsBuiltin)
    else if Mentions(s.userRoles, id) then Err(StillBound)
    else Ok(s.(rolePermissions := Select(s.rolePermissions, (r: (int, int)) => r.0 != id),
               roles := Registry(s.roles.rows - {id}, s.roles.next)))
  }

  function DeletePermission(s: Store, code: Option<string>): Result<Store, Error> {
    var normalized :- NormalizeCode(code);
    var id :- GetOrThrow(s.permissions, normalized);
    if s.permissions.rows[id].builtin then Err(IsBuiltin)
    else if Mentions(s.rolePermissions, id) then Err(StillBound)
    else Ok(s.(permissions := Registry(s.permissions.rows - {id}, s.permissions.next)))
  }

  const ROLE_USER := "user"
  const ROLE_SUPER_ADMIN := "super-admin"

  function AddUser(users: seq<int>, cid: int): (added: seq<int>)
    ensures forall u :: u in added <==> u in users || u == cid
    ensures |added| == |users| + 1
  {
    if users != [] && users[0] < cid then [users[0]] + AddUser(users[1..], cid) else [cid] + users
  }

  /** A new account with its default roles: the only account of a server without a super administrator
      becomes one. */
  function SignUp(s: Store, cid: int): Result<Store, Error> {
    if cid in s.users then Err(UserExists)
    else
      var users := AddUser(s.users, cid);
      var userRole :- GetOrThrow(s.roles, ROLE_USER);
      var bound := Ensure(s.userRoles, cid, userRole);
      var superAdmin :- GetOrThrow(s.roles, ROLE_SUPER_ADMIN);
      var userRoles :=
        if !Mentions(bound, superAdmin) && |users| == 1 then Ensure(bound, cid, superAdmin) else bound;
      Ok(s.(users := users, userRoles := userRoles))
  }

  // ----- the invariant -----

  ghost predicate UserRolesSound(s: Store) {
    Unique(s.userRoles) && forall r :: r in s.userRoles ==> r.0 in s.users && r.1 in s.roles.rows
  }

  ghost predicate RolePermissionsSound(s: Store) {
    Unique(s.rolePermissions)
    && forall r :: r in s.rolePermissions ==> r.0 in s.roles.rows && r.1 in s.permissions.rows
  }

  /** Codes and pairs are unique and no row refers to anything missing. */
  ghost predicate Integrity(s: Store) {
    RegistrySound(s.roles) && RegistrySound(s.permissions) && UserRolesSound(s) && RolePermissionsSound(s)
  }

  /** Built-in entries stay as they are. */
  ghost predicate BuiltinsKept(reg: Registry, reg': Registry) {
    forall id :: id in reg.rows && reg.rows[id].builtin ==> id in reg'.rows && reg'.rows[id] == reg.rows[id]
  }

  ghost predicate Keeps(s: Store, s': Store) {
    Integrity(s') && BuiltinsKept(s.roles, s'.roles) && BuiltinsKept(s.permissions, s'.permissions)
  }

  lemma FoundAll(reg: Registry, codes: seq<string>)
    requires RegistrySound(reg) && FindAllOrThrow(reg, codes).Ok?
    ensures forall id :: id in FindAllOrThrow(reg, codes).value <==> id in reg.rows && reg.rows[id].code in codes
  {
    FoundByCodeIn(reg, codes);
    hide FindByCodeIn, CodesAt;
  }

  lemma UserRolesReassigned(s: Store, user: int, ids: seq<int>)
    requires UserRolesSound(s) && user in s.users && forall id :: id in ids ==> id in s.roles.rows
    ensures UserRolesSound(s.(userRoles := Reassign(s.userRoles, user, ids)))
  {
    var rel := Reassign(s.userRoles, user, ids);
    forall r | r in rel ensures r.0 in s.users && r.1 in s.roles.rows {
      if r.0 == user {
        var id := r.1;
        assert id in ids && id in s.roles.rows;
      } else {
        assert r in s.userRoles && r.0 in s.users;
      }
    }
  }

  lemma RolePermissionsReassigned(s: Store, role: int, ids: seq<int>)
    requires RolePermissionsSound(s) && role in s.roles.rows && forall id :: id in ids ==> id in s.permissions.rows
    ensures RolePermissionsSound(s.(rolePermissions := Reassign(s.rolePermissions, role, ids)))
  {
    var rel := Reassign(s.rolePermissions, role, ids);
    forall r | r in rel ensures r.0 in s.roles.rows && r.1 in s.permissions.rows {
      if r.0 == role {
        var id := r.1;
        assert id in ids && id in s.permissions.rows;
      } else {
        assert r in s.rolePermissions && r.0 in s.roles.rows;
      }
    }
  }

  lemma AssignedRoles(s: Store, user: int, codes: Option<seq<Option<string>>>)
    requires AssignRoles(s, user, codes).Ok?
    ensures user in s.users && NormalizeCodes(codes).Ok? && FindAllOrThrow(s.roles, NormalizeCodes(codes).value).Ok?
    ensures var ids := FindAllOrThrow(s.roles, NormalizeCodes(codes).value).value;
            AssignRoles(s, user, codes).value == s.(userRoles := Reassign(s.userRoles, user, ids))
  {
    hide Reassign, NormalizeCodes, FindAllOrThrow;
  }

  lemma UserRolesReplaced(s: Store, rel: Relation)
    requires Integrity(s) && UserRolesSound(s.(userRoles := rel))
    ensures Keeps(s, s.(userRoles := rel))
  {
    hide RegistrySound, Unique;
  }

  lemma AssignRolesKeeps(s: Store, user: int, codes: Option<seq<Option<string>>>)
    requires Integrity(s) && AssignRoles(s, user, codes).Ok?
    ensures Keeps(s, AssignRoles(s, user, codes).value)
  {
    AssignedRoles(s, user, codes);
    var ids := FindAllOrThrow(s.roles, NormalizeCodes(codes).value).value;
    FoundAll(s.roles, NormalizeCodes(codes).value);
    UserRolesReassigned(s, user, ids);
    hide *;
    UserRolesReplaced(s, Reassign(s.userRoles, user, ids));
  }

  lemma AssignPermissionsKeeps(s: Store, role: Option<string>, codes: Option<seq<Option<string>>>)
    requires Integrity(s) && AssignPermissions(s, role, codes).Ok?
    ensures Keeps(s, AssignPermissions(s, role, codes).value)
  {
    AssignedPermissions(s, role, codes);
    var id := GetOrThrow(s.roles, NormalizeCode(role).value).value;
    var ids := FindAllOrThrow(s.permissions, NormalizeCodes(codes).value).value;
    FoundAll(s.permissions, NormalizeCodes(codes).value);
    RolePermissionsReassigned(s, id, ids);
    hide *;
    RolePermissionsReplaced(s, Reassign(s.rolePermissions, id, ids));
  }

  lemma AssignedPermissions(s: Store, role: Option<string>, codes: Option<seq<Option<string>>>)
    requires AssignPermissions(s, role, codes).Ok?
    ensures NormalizeCodes(codes).Ok? && NormalizeCode(role).Ok?
    ensures GetOrThrow(s.roles, NormalizeCode(role).value).Ok?
    ensures FindAllOrThrow(s.permissions, NormalizeCodes(codes).value).Ok?
    ensures var id := GetOrThrow(s.roles, NormalizeCode(role).value).value;
            var ids := FindAllOrThrow(s.permissions, NormalizeCodes(codes).value).value;
            AssignPermissions(s, role, codes).value == s.(rolePermissions := Reassign(s.rolePermissions, id, ids))
  {
    hide Reassign, NormalizeCodes, NormalizeCode, FindAllOrThrow, GetOrThrow;
  }

  lemma RolePermissionsReplaced(s: Store, rel: Relation)
    requires Integrity(s) && RolePermissionsSound(s.(rolePermissions := rel))
    ensures Keeps(s, s.(rolePermissions := rel))
  {
    hide RegistrySound, Unique;
  }

  lemma RevokesKeep(s: Store, s': Store, user: int, code: Option<string>, role: Option<string>)
    requires Integrity(s)
    requires RevokeRole(s, user, code) == Ok(s') || RevokePermission(s, role, code) == Ok(s')
    ensures Keeps(s, s')
  {
    hide FindByCode, Unique, RegistrySound;
  }

  lemma CreatedEntry(reg: Registry, code: Option<string>, name: Option<string>, description: Option<string>)
    requires RegistrySound(reg) && CreateEntry(reg, code, name, description).Ok?
    ensures var reg' := CreateEntry(reg, code, name, description).value;
            RegistrySound(reg') && BuiltinsKept(reg, reg') && reg'.rows.Keys == reg.rows.Keys + {reg.next}
  {
    NotFoundByCode(reg, NormalizeCode(code).value);
    hide FindByCode, Trim;
  }

  lemma CreatesKeep(s: Store, s': Store, code: Option<string>, name: Option<string>, description: Option<string>)
    requires Integrity(s)
    requires CreateRole(s, code, name, description) == Ok(s') || CreatePermission(s, code, name, description) == Ok(s')
    ensures Keeps(s, s')
  {
    if CreateRole(s, code, name, description) == Ok(s') {
      CreatedEntry(s.roles, code, name, description);
    } else {
      CreatedEntry(s.permissions, code, name, description);
    }
    hide CreateEntry, RegistrySound, Unique;
  }

  lemma DeletesKeep(s: Store, s': Store, code: Option<string>)
    requires Integrity(s)
    requires DeleteRole(s, code) == Ok(s') || DeletePermission(s, code) == Ok(s')
    ensures Keeps(s, s')
  {
    hide FindByCode, Unique, NormalizeCode;
  }

  lemma SignUpKeeps(s: Store, cid: int)
    requires Integrity(s) && SignUp(s, cid).Ok?
    ensures Keeps(s, SignUp(s, cid).value)
  {
    hide FindByCode, Unique, RegistrySound;
  }

  // ----- bootstrap -----

  function Builtin(code: string, name: string, description: string): Entry {
    Entry(code, name, Some(description), true)
  }

  const BUILTIN_ROLES: seq<Entry> := [
    Builtin(ROLE_USER, "普通用户", "平台默认角色"),
    Builtin(ROLE_SUPER_ADMIN, "超级管理员", "拥有系统内全部 RBAC 管理能力")
  ]

  const PROFILE_READ := "system:profile:read"

  const BUILTIN_PERMISSIONS: seq<Entry> := [
    Builtin(PROFILE_READ, "读取个人权限信息", "查看当前登录用户的角色和权限"),
    Builtin("system:rbac:catalog:read", "查看 RBAC 目录", "查看系统角色和权限目录"),
    Builtin("system:rbac:user:read", "查看用户授权信息", "查看指定用户的角色和权限"),
    Builtin("system:rbac:role:create", "创建角色", "创建自定义角色"),
    Builtin("system:rbac:role:delete", "删除角色", "删除自定义角色"),
    Builtin("system:rbac:permission:create", "创建权限", "创建自定义权限"),
    Builtin("system:rbac:permission:delete", "删除权限", "删除自定义权限"),
    Builtin("system:rbac:user-role:assign", "用户分配角色", "给指定用户绑定或调整角色"),
    Builtin("system:rbac:user-role:revoke", "用户移除角色", "从指定用户移除某个角色"),
    Builtin("system:rbac:role-permission:assign", "角色分配权限", "给指定角色绑定权限"),
    Builtin("system:rbac:role-permission:revoke", "角色移除权限", "从指定角色移除某个权限")
  ]

  /** ensureRole and ensurePermission, for a built-in entry. */
  function EnsureEntry(reg: Registry, e: Entry): Registry {
    match FindByCode(reg, e.code)
    case None => Insert(reg, e)
    case Some(id) =>
      if reg.rows[id].builtin then reg
      else Registry(reg.rows[id := reg.rows[id].(builtin := true)], reg.next)
  }

  function EnsureEntries(reg: Registry, entries: seq<Entry>): Registry {
    if entries == [] then reg
    else EnsureEntry(EnsureEntries(reg, entries[..|entries| - 1]), entries[|entries| - 1])
  }

  function IdOf(reg: Registry, code: string): int {
    var id := FindByCode(reg, code);
    if id.Some? then id.value else 0
  }

  function IdsOf(reg: Registry, entries: seq<Entry>): (ids: seq<int>)
    ensures |ids| == |entries|
    ensures forall i :: 0 <= i < |ids| ==> ids[i] == IdOf(reg, entries[i].code)
  {
    seq(|entries|, i requires 0 <= i < |entries| => IdOf(reg, entries[i].code))
  }

  function EnsureUsers(rel: Relation, users: seq<int>, role: int): (ensured: Relation)
    ensures forall r :: r in ensured <==> r in rel || (r.0 in users && r.1 == role)
    ensures Unique(rel) ==> Unique(ensured)
  {
    if users == [] then rel
    else
      assert users == users[..|users| - 1] + [users[|users| - 1]];
      Ensure(EnsureUsers(rel, users[..|users| - 1], role), users[|users| - 1], role)
  }

  /** A server without a super administrator gives the role to its first user. */
  function EnsureSuperAdmin(rel: Relation, users: seq<int>, superAdmin: int): Relation {
    if !Mentions(rel, superAdmin) && users != [] then Ensure(rel, users[0], superAdmin) else rel
  }

  function Bootstrap(s: Store): Store {
    var roles := EnsureEntries(s.roles, BUILTIN_ROLES);
    var permissions := EnsureEntries(s.permissions, BUILTIN_PERMISSIONS);
    var userRole, superAdmin := IdOf(roles, ROLE_USER), IdOf(roles, ROLE_SUPER_ADMIN);
    var profile := Ensure(s.rolePermissions, userRole, IdOf(permissions, PROFILE_READ));
    Store(s.users, roles, permissions,
          EnsureSuperAdmin(EnsureUsers(s.userRoles, s.users, userRole), s.users, superAdmin),
          EnsureAll(profile, superAdmin, IdsOf(permissions, BUILTIN_PERMISSIONS)))
  }

  ghost predicate HasBuiltin(reg: Registry, code: string) {
    var id := FindByCode(reg, code);
    id.Some? && reg.rows[id.value].builtin
  }

  ghost predicate HasAll(reg: Registry, entries: seq<Entry>) {
    forall e :: e in entries ==> HasBuiltin(reg, e.code)
  }

  lemma EnsuredEntry(reg: Registry, e: Entry)
    requires RegistrySound(reg) && e.builtin
    ensures var reg' := EnsureEntry(reg, e);
            && RegistrySound(reg') && BuiltinsKept(reg, reg') && reg.rows.Keys <= reg'.rows.Keys
            && (forall id :: id in reg.rows ==> reg'.rows[id].code == reg.rows[id].code)
            && exists id :: id in reg'.rows && reg'.rows[id].code == e.code && reg'.rows[id].builtin
  {
    if FindByCode(reg, e.code).None? {
      NotFoundByCode(reg, e.code);
      hide FindByCode;
      assert EnsureEntry(reg, e).rows[reg.next] == e;
    } else {
      hide FindByCode;
      var id := FindByCode(reg, e.code).value;
      assert EnsureEntry(reg, e).rows[id].builtin;
    }
  }

  lemma BuiltinStays(reg: Registry, reg': Registry, code: string)
    requires RegistrySound(reg') && BuiltinsKept(reg, reg') && HasBuiltin(reg, code)
    ensures HasBuiltin(reg', code) && FindByCode(reg', code) == FindByCode(reg, code)
  {
    FoundByCode(reg', code, FindByCode(reg, code).value);
    hide FindByCode;
  }

  lemma EnsuredIsBuiltin(reg: Registry, e: Entry)
    requires RegistrySound(reg) && e.builtin
    ensures HasBuiltin(EnsureEntry(reg, e), e.code)
  {
    EnsuredEntry(reg, e);
    var reg' := EnsureEntry(reg, e);
    hide EnsureEntry, FindByCode, RegistrySound;
    var id :| id in reg'.rows && reg'.rows[id].code == e.code && reg'.rows[id].builtin;
    FoundByCode(reg', e.code, id);
  }

  lemma {:induction false} EnsuredEntries(reg: Registry, entries: seq<Entry>)
    requires RegistrySound(reg) && forall e :: e in entries ==> e.builtin
    ensures var reg' := EnsureEntries(reg, entries);
            && RegistrySound(reg') && BuiltinsKept(reg, reg') && reg.rows.Keys <= reg'.rows.Keys
            && HasAll(reg', entries)
  {
    if entries != [] {
      var init, last := entries[..|entries| - 1], entries[|entries| - 1];
      assert entries == init + [last];
      EnsuredEntries(reg, init);
      var before := EnsureEntries(reg, init);
      EnsuredEntry(before, last);
      EnsuredIsBuiltin(before, last);
      hide EnsureEntry, RegistrySound, HasBuiltin;
      forall e | e in init ensures HasBuiltin(EnsureEntry(before, last), e.code) {
        BuiltinStays(before, EnsureEntry(before, last), e.code);
      }
    }
  }

  lemma {:induction false} EnsuringTwiceIsOnce(reg: Registry, entries: seq<Entry>)
    requires HasAll(reg, entries)
    ensures EnsureEntries(reg, entries) == reg
  {
    if entries != [] {
      EnsuringTwiceIsOnce(reg, entries[..|entries| - 1]);
      hide FindByCode;
      assert HasBuiltin(reg, entries[|entries| - 1].code);
    }
  }

  lemma {:induction false} EnsureAllTwice(rel: Relation, key: int, ids: seq<int>)
    requires forall id :: id in ids ==> (key, id) in rel
    ensures EnsureAll(rel, key, ids) == rel
  {
    if ids != [] {
      EnsureAllTwice(rel, key, ids[..|ids| - 1]);
    }
  }

  lemma {:induction false} EnsureUsersTwice(rel: Relation, users: seq<int>, role: int)
    requires forall u :: u in users ==> (u, role) in rel
    ensures EnsureUsers(rel, users, role) == rel
  {
    if users != [] {
      EnsureUsersTwice(rel, users[..|users| - 1], role);
    }
  }

  lemma BuiltinEntries()
    ensures forall e :: e in BUILTIN_ROLES ==> e.builtin
    ensures forall e :: e in BUILTIN_PERMISSIONS ==> e.builtin
    ensures exists e :: e in BUILTIN_ROLES && e.code == ROLE_USER
    ensures exists e :: e in BUILTIN_ROLES && e.code == ROLE_SUPER_ADMIN
    ensures exists e :: e in BUILTIN_PERMISSIONS && e.code == PROFILE_READ
  {
    assert BUILTIN_ROLES[0] in BUILTIN_ROLES && BUILTIN_ROLES[1] in BUILTIN_ROLES;
    assert BUILTIN_PERMISSIONS[0] in BUILTIN_PERMISSIONS;
  }

  /** The built-in roles and permissions are there and marked. */
  ghost predicate Equipped(s: Store) {
    HasAll(s.roles, BUILTIN_ROLES) && HasAll(s.permissions, BUILTIN_PERMISSIONS)
  }

  /** The rows bootstrap puts in: every account is a user, the super administrators may do everything,
      and there is one as soon as there is an account. */
  ghost predicate Granted(s: Store) {
    var userRole, superAdmin := IdOf(s.roles, ROLE_USER), IdOf(s.roles, ROLE_SUPER_ADMIN);
    && (forall u :: u in s.users ==> (u, userRole) in s.userRoles)
    && (s.users != [] ==> Mentions(s.userRoles, superAdmin))
    && (userRole, IdOf(s.permissions, PROFILE_READ)) in s.rolePermissions
    && (forall id :: id in IdsOf(s.permissions, BUILTIN_PERMISSIONS) ==> (superAdmin, id) in s.rolePermissions)
  }

  lemma BootstrapEquips(s: Store)
    requires RegistrySound(s.roles) && RegistrySound(s.permissions)
    ensures var s' := Bootstrap(s);
            && RegistrySound(s'.roles) && BuiltinsKept(s.roles, s'.roles) && s.roles.rows.Keys <= s'.roles.rows.Keys
            && RegistrySound(s'.permissions) && BuiltinsKept(s.permissions, s'.permissions)
            && s.permissions.rows.Keys <= s'.permissions.rows.Keys && Equipped(s')
  {
    BuiltinEntries();
    hide EnsureEntries, EnsureUsers, EnsureAll, EnsureSuperAdmin, Ensure, IdOf, IdsOf;
    hide BUILTIN_ROLES, BUILTIN_PERMISSIONS, RegistrySound, BuiltinsKept, HasAll;
    EnsuredEntries(s.roles, BUILTIN_ROLES);
    EnsuredEntries(s.permissions, BUILTIN_PERMISSIONS);
  }

  lemma SuperAdminEnsured(rel: Relation, users: seq<int>, superAdmin: int)
    ensures var rel' := EnsureSuperAdmin(rel, users, superAdmin);
            && (forall r :: r in rel ==> r in rel')
            && (forall r :: r in rel' ==> r in rel || (r.0 in users && r.1 == superAdmin))
            && (users != [] ==> Mentions(rel', superAdmin))
            && (Unique(rel) ==> Unique(rel'))
  {
    hide Unique;
    if users != [] && !Mentions(rel, superAdmin) {
      assert (users[0], superAdmin) in Ensure(rel, users[0], superAdmin);
    }
  }

  lemma BootstrapGrants(s: Store)
    ensures Granted(Bootstrap(s))
  {
    hide BUILTIN_ROLES, BUILTIN_PERMISSIONS, EnsureEntries, IdOf, Unique;
    var roles := EnsureEntries(s.roles, BUILTIN_ROLES);
    var users := EnsureUsers(s.userRoles, s.users, IdOf(roles, ROLE_USER));
    SuperAdminEnsured(users, s.users, IdOf(roles, ROLE_SUPER_ADMIN));
    hide EnsureUsers, EnsureSuperAdmin, Mentions, IdsOf, EnsureAll, Ensure;
  }

  /** Bootstrapping an equipped and granted store changes nothing. */
  lemma NothingToBootstrap(s: Store)
    requires Equipped(s) && Granted(s)
    ensures Bootstrap(s) == s
  {
    hide BUILTIN_ROLES, BUILTIN_PERMISSIONS;
    EnsuringTwiceIsOnce(s.roles, BUILTIN_ROLES);
    EnsuringTwiceIsOnce(s.permissions, BUILTIN_PERMISSIONS);
    hide EnsureEntries, HasAll, IdOf;
    EnsureUsersTwice(s.userRoles, s.users, IdOf(s.roles, ROLE_USER));
    EnsureAllTwice(s.rolePermissions, IdOf(s.roles, ROLE_SUPER_ADMIN), IdsOf(s.permissions, BUILTIN_PERMISSIONS));
    hide EnsureUsers, EnsureAll, IdsOf, Mentions;
  }

  /** Running the bootstrap on its own result changes nothing. */
  lemma BootstrapIsIdempotent(s: Store)
    requires RegistrySound(s.roles) && RegistrySound(s.permissions)
    ensures Bootstrap(Bootstrap(s)) == Bootstrap(s)
  {
    BootstrapEquips(s);
    BootstrapGrants(s);
    hide Bootstrap, Equipped, Granted;
    NothingToBootstrap(Bootstrap(s));
  }

  lemma IdOfBuiltin(reg: Registry, entries: seq<Entry>, e: Entry)
    requires HasAll(reg, entries) && e in entries
    ensures IdOf(reg, e.code) in reg.rows
  {
    hide FindByCode;
  }

  /** From any store whose rows are in order, the empty one included, bootstrap makes an equipped store
      whose rows are in order. */
  lemma BootstrapKeeps(s: Store)
    requires Integrity(s)
    ensures Keeps(s, Bootstrap(s)) && Equipped(Bootstrap(s)) && Granted(Bootstrap(s))
  {
    BootstrapEquips(s);
    BootstrapGrants(s);
    BootstrapUserRoles(s);
    BootstrapRolePermissions(s);
    hide Bootstrap, Equipped, Granted, RegistrySound, BuiltinsKept, UserRolesSound, RolePermissionsSound;
  }

  /** Every row joins one of these keys to one of these ids. */
  ghost predicate RowsWithin(rel: Relation, keys: set<int>, ids: set<int>) {
    Unique(rel) && forall r :: r in rel ==> r.0 in keys && r.1 in ids
  }

  lemma UserRowsEnsured(rel: Relation, users: seq<int>, userRole: int, superAdmin: int, keys: set<int>, ids: set<int>)
    requires RowsWithin(rel, keys, ids) && userRole in ids && superAdmin in ids
    requires forall u :: u in users ==> u in keys
    ensures RowsWithin(EnsureSuperAdmin(EnsureUsers(rel, users, userRole), users, superAdmin), keys, ids)
  {
    var ensured := EnsureUsers(rel, users, userRole);
    SuperAdminEnsured(ensured, users, superAdmin);
    forall r | r in EnsureSuperAdmin(ensured, users, superAdmin) ensures r.0 in keys && r.1 in ids {
      var u := r.0;
      assert r in rel || u in users;
    }
  }

  lemma PermissionRowsEnsured(rel: Relation, userRole: int, profile: int, superAdmin: int, all: seq<int>, keys: set<int>, ids: set<int>)
    requires RowsWithin(rel, keys, ids) && userRole in keys && superAdmin in keys && profile in ids
    requires forall id :: id in all ==> id in ids
    ensures RowsWithin(EnsureAll(Ensure(rel, userRole, profile), superAdmin, all), keys, ids)
  {
    forall r | r in EnsureAll(Ensure(rel, userRole, profile), superAdmin, all) ensures r.0 in keys && r.1 in ids {
      var id := r.1;
      assert r in rel || r == (userRole, profile) || id in all;
    }
  }

  lemma BuiltinIds(s: Store)
    requires Equipped(s)
    ensures IdOf(s.roles, ROLE_USER) in s.roles.rows && IdOf(s.roles, ROLE_SUPER_ADMIN) in s.roles.rows
    ensures IdOf(s.permissions, PROFILE_READ) in s.permissions.rows
    ensures forall id :: id in IdsOf(s.permissions, BUILTIN_PERMISSIONS) ==> id in s.permissions.rows
  {
    BuiltinEntries();
    hide BUILTIN_ROLES, BUILTIN_PERMISSIONS, IdOf, HasAll;
    var e :| e in BUILTIN_ROLES && e.code == ROLE_USER;
    var f :| f in BUILTIN_ROLES && f.code == ROLE_SUPER_ADMIN;
    var g :| g in BUILTIN_PERMISSIONS && g.code == PROFILE_READ;
    IdOfBuiltin(s.roles, BUILTIN_ROLES, e);
    IdOfBuiltin(s.roles, BUILTIN_ROLES, f);
    IdOfBuiltin(s.permissions, BUILTIN_PERMISSIONS, g);
    IdsOfBuiltins(s.permissions, BUILTIN_PERMISSIONS);
  }

  lemma BootstrapRows(s: Store)
    ensures var s' := Bootstrap(s);
            var userRole, superAdmin := IdOf(s'.roles, ROLE_USER), IdOf(s'.roles, ROLE_SUPER_ADMIN);
            && s'.users == s.users
            && s'.userRoles == EnsureSuperAdmin(EnsureUsers(s.userRoles, s.users, userRole), s.users, superAdmin)
            && s'.rolePermissions
               == EnsureAll(Ensure(s.rolePermissions, userRole, IdOf(s'.permissions, PROFILE_READ)),
                            superAdmin, IdsOf(s'.permissions, BUILTIN_PERMISSIONS))
  {
    hide EnsureEntries, EnsureUsers, EnsureSuperAdmin, EnsureAll, Ensure, IdOf, IdsOf, BUILTIN_PERMISSIONS, BUILTIN_ROLES;
  }

  lemma WithinMore(rel: Relation, keys: set<int>, ids: set<int>, keys': set<int>, ids': set<int>)
    requires RowsWithin(rel, keys, ids) && keys <= keys' && ids <= ids'
    ensures RowsWithin(rel, keys', ids')
  {
    hide Unique;
  }

  function Accounts(s: Store): (accounts: set<int>)
    ensures forall u :: u in accounts <==> u in s.users
  {
    set u | u in s.users
  }

  lemma UserRowsWithin(s: Store)
    requires UserRolesSound(s)
    ensures RowsWithin(s.userRoles, Accounts(s), s.roles.rows.Keys)
  {
    hide Unique;
  }

  lemma PermissionRowsWithin(s: Store)
    requires RolePermissionsSound(s)
    ensures RowsWithin(s.rolePermissions, s.roles.rows.Keys, s.permissions.rows.Keys)
  {
    hide Unique;
  }

  lemma BootstrapUserRoles(s: Store)
    requires RegistrySound(s.roles) && RegistrySound(s.permissions) && UserRolesSound(s)
    ensures UserRolesSound(Bootstrap(s))
  {
    hide *;
    var s' := Bootstrap(s);
    var users, roles := Accounts(s), s'.roles.rows.Keys;
    BootstrapEquips(s);
    BootstrapRows(s);
    BuiltinIds(s');
    UserRowsWithin(s);
    WithinMore(s.userRoles, users, s.roles.rows.Keys, users, roles);
    UserRowsEnsured(s.userRoles, s.users, IdOf(s'.roles, ROLE_USER), IdOf(s'.roles, ROLE_SUPER_ADMIN), users, roles);
    UserRowsSound(s'.userRoles, users, roles, s');
  }

  lemma UserRowsSound(rel: Relation, users: set<int>, roles: set<int>, s: Store)
    requires RowsWithin(rel, users, roles) && rel == s.userRoles && roles == s.roles.rows.Keys
    requires forall u :: u in users ==> u in s.users
    ensures UserRolesSound(s)
  {
    hide Unique;
    forall r | r in rel ensures r.0 in s.users && r.1 in s.roles.rows {
      var u := r.0;
      assert u in users;
    }
  }

  lemma PermissionRowsSound(s: Store)
    requires RowsWithin(s.rolePermissions, s.roles.rows.Keys, s.permissions.rows.Keys)
    ensures RolePermissionsSound(s)
  {
    hide Unique;
  }

  lemma BootstrapRolePermissions(s: Store)
    requires RegistrySound(s.roles) && RegistrySound(s.permissions) && RolePermissionsSound(s)
    ensures RolePermissionsSound(Bootstrap(s))
  {
    hide *;
    var s' := Bootstrap(s);
    var roles, permissions := s'.roles.rows.Keys, s'.permissions.rows.Keys;
    BootstrapEquips(s);
    BootstrapRows(s);
    BuiltinIds(s');
    PermissionRowsWithin(s);
    WithinMore(s.rolePermissions, s.roles.rows.Keys, s.permissions.rows.Keys, roles, permissions);
    PermissionRowsEnsured(s.rolePermissions, IdOf(s'.roles, ROLE_USER), IdOf(s'.permissions, PROFILE_READ),
                          IdOf(s'.roles, ROLE_SUPER_ADMIN), IdsOf(s'.permissions, BUILTIN_PERMISSIONS),
                          roles, permissions);
    PermissionRowsSound(s');
  }

  lemma IdsOfBuiltins(reg: Registry, entries: seq<Entry>)
    requires HasAll(reg, entries)
    ensures forall id :: id in IdsOf(reg, entries) ==> id in reg.rows
  {
    hide IdOf, HasAll;
    var ids := IdsOf(reg, entries);
    forall i | 0 <= i < |ids| ensures ids[i] in reg.rows {
      IdOfBuiltin(reg, entries, entries[i]);
    }
  }

  // ----- runs -----

  datatype Op =
    | SigningUp(cid: int)
    | AssigningRoles(user: int, codes: Option<seq<Option<string>>>)
    | RevokingRole(user: int, code: Option<string>)
    | AssigningPermissions(role: Option<string>, codes: Option<seq<Option<string>>>)
    | RevokingPermission(role: Option<string>, code: Option<string>)
    | CreatingRole(code: Option<string>, name: Option<string>, description: Option<string>)
    | DeletingRole(code: Option<string>)
    | CreatingPermission(code: Option<string>, name: Option<string>, description: Option<string>)
    | DeletingPermission(code: Option<string>)
    | Restarting

  function Perform(s: Store, op: Op): Result<Store, Error> {
    match op
    case SigningUp(cid) => SignUp(s, cid)
    case AssigningRoles(user, codes) => AssignRoles(s, user, codes)
    case RevokingRole(user, code) => RevokeRole(s, user, code)
    case AssigningPermissions(role, codes) => AssignPermissions(s, role, codes)
    case RevokingPermission(role, code) => RevokePermission(s, role, code)
    case CreatingRole(code, name, description) => CreateRole(s, code, name, description)
    case DeletingRole(code) => DeleteRole(s, code)
    case CreatingPermission(code, name, description) => CreatePermission(s, code, name, description)
    case DeletingPermission(code) => DeletePermission(s, code)
    case Restarting => Ok(Bootstrap(s))
  }

  /** The store after the call: an exception rolls everything back. */
  function After(s: Store, op: Op): Store {
    var r := Perform(s, op);
    if r.Ok? then r.value else s
  }

  function Run(s: Store, ops: seq<Op>): Store {
    if ops == [] then s else After(Run(s, ops[..|ops| - 1]), ops[|ops| - 1])
  }

  /** Every call, whether it commits or rolls back, keeps the integrity of the tables and every built-in
      role and permission. */
  lemma AfterKeeps(s: Store, op: Op)
    requires Integrity(s)
    ensures Keeps(s, After(s, op))
  {
    hide Integrity, Keeps, Bootstrap, SignUp, AssignRoles, RevokeRole, AssignPermissions, RevokePermission;
    hide CreateRole, CreatePermission, DeleteRole, DeletePermission;
    var r := Perform(s, op);
    if r.Err? {
      KeepsItself(s);
    } else {
      match op
      case SigningUp(cid) => SignUpKeeps(s, cid);
      case AssigningRoles(user, codes) => AssignRolesKeeps(s, user, codes);
      case RevokingRole(user, code) => RevokesKeep(s, r.value, user, code, None);
      case AssigningPermissions(role, codes) => AssignPermissionsKeeps(s, role, codes);
      case RevokingPermission(role, code) => RevokesKeep(s, r.value, 0, code, role);
      case CreatingRole(code, name, description) => CreatesKeep(s, r.value, code, name, description);
      case DeletingRole(code) => DeletesKeep(s, r.value, code);
      case CreatingPermission(code, name, description) => CreatesKeep(s, r.value, code, name, description);
      case DeletingPermission(code) => DeletesKeep(s, r.value, code);
      case Restarting => BootstrapKeeps(s);
    }
  }

  lemma KeepsItself(s: Store)
    requires Integrity(s)
    ensures Keeps(s, s)
  {
  }

  lemma KeepsChains(s: Store, s1: Store, s2: Store)
    requires Keeps(s, s1) && Keeps(s1, s2)
    ensures Keeps(s, s2)
  {
    hide Integrity;
  }

  lemma {:induction false} RunKeeps(s: Store, ops: seq<Op>)
    requires Integrity(s)
    ensures Keeps(s, Run(s, ops))
  {
    hide Integrity, Keeps, After;
    if ops == [] {
      KeepsItself(s);
    } else {
      var before := Run(s, ops[..|ops| - 1]);
      RunKeeps(s, ops[..|ops| - 1]);
      IntegrityKept(s, before);
      AfterKeeps(before, ops[|ops| - 1]);
      KeepsChains(s, before, Run(s, ops));
    }
  }

  lemma IntegrityKept(s: Store, s': Store)
    requires Keeps(s, s')
    ensures Integrity(s')
  {
    hide Integrity;
  }

  /** After bootstrap and any sequence of calls and restarts: no row refers to a missing user, role or
      permission, pairs and codes are unique, the built-in roles and permissions are all there under the
      ids they had, and the catalogue is what the per-role queries give. */
  lemma IntegrityAlways(s: Store, ops: seq<Op>)
    requires Integrity(s)
    ensures Integrity(Run(Bootstrap(s), ops)) && Equipped(Run(Bootstrap(s), ops))
    ensures BuiltinsKept(s.roles, Run(Bootstrap(s), ops).roles)
    ensures BuiltinsKept(s.permissions, Run(Bootstrap(s), ops).permissions)
    ensures var s' := Run(Bootstrap(s), ops); s'.roles.next >= 1 && Catalog(s') == Ok(PerRoleViews(s', s'.roles.next))
  {
    BootstrapKeeps(s);
    var s1, s2 := Bootstrap(s), Run(Bootstrap(s), ops);
    hide Bootstrap, Run, Integrity;
    RunKeeps(s1, ops);
    KeepsChains(s, s1, s2);
    EquipmentKept(s1, s2);
    CatalogWorks(s2);
  }

  lemma CatalogWorks(s: Store)
    requires Integrity(s)
    ensures s.roles.next >= 1 && Catalog(s) == Ok(PerRoleViews(s, s.roles.next))
  {
    CatalogAgrees(s);
    hide UserRolesSound, Unique, Catalog, PerRoleViews;
  }

  lemma EquipmentKept(s: Store, s': Store)
    requires Equipped(s) && Keeps(s, s')
    ensures Equipped(s')
  {
    hide RegistrySound, UserRolesSound, RolePermissionsSound, HasBuiltin, BUILTIN_ROLES, BUILTIN_PERMISSIONS, BuiltinsKept;
    forall e | e in BUILTIN_ROLES ensures HasBuiltin(s'.roles, e.code) {
      BuiltinStays(s.roles, s'.roles, e.code);
    }
    forall e | e in BUILTIN_PERMISSIONS ensures HasBuiltin(s'.permissions, e.code) {
      BuiltinStays(s.permissions, s'.permissions, e.code);
    }
  }

  // ----- what the calls do -----

  lemma AllCodesFound(reg: Registry, codes: seq<string>)
    requires RegistrySound(reg) && FindAllOrThrow(reg, codes).Ok?
    ensures forall c :: c in codes <==> exists id :: id in FindAllOrThrow(reg, codes).value && id in reg.rows && reg.rows[id].code == c
  {
    FoundByCodeIn(reg, codes);
    var ids := FindByCodeIn(reg, codes);
    var found := CodesAt(reg, ids);
    hide FindByCodeIn;
    assert forall c :: c in codes ==> c in found;
  }

  lemma SameRolesForOthers(s: Store, s': Store, user: int)
    requires s'.roles == s.roles && s'.permissions == s.permissions && s'.rolePermissions == s.rolePermissions
    requires forall r :: (user, r) in s'.userRoles <==> (user, r) in s.userRoles
    ensures RoleCodes(s', user) == RoleCodes(s, user) && PermissionCodes(s', user) == PermissionCodes(s, user)
  {
    UserRolesAreExact(s, user);
    UserRolesAreExact(s', user);
    UserPermissionsAreUnion(s, user);
    UserPermissionsAreUnion(s', user);
    hide RoleCodes, PermissionCodes, Ascending;
    assert forall r :: RolePermissionCodes(s', r) == RolePermissionCodes(s, r);
    hide RolePermissionCodes;
    AscendingIsUnique(RoleCodes(s', user), RoleCodes(s, user));
    AscendingIsUnique(PermissionCodes(s', user), PermissionCodes(s, user));
  }

  /** Assigning roles makes the user's roles exactly the requested ones, each trimmed, blanks and nulls
      dropped, and changes nobody else's roles or permissions. */
  lemma AssignRolesExactly(s: Store, user: int, codes: Option<seq<Option<string>>>)
    requires RegistrySound(s.roles) && AssignRoles(s, user, codes).Ok?
    ensures var s' := AssignRoles(s, user, codes).value;
            && (forall c :: c in RoleCodes(s', user) <==> c in NormalizeCodes(codes).value)
            && (forall u :: u != user ==> RoleCodes(s', u) == RoleCodes(s, u) && PermissionCodes(s', u) == PermissionCodes(s, u))
  {
    AssignedRoles(s, user, codes);
    var normalized := NormalizeCodes(codes).value;
    var ids := FindAllOrThrow(s.roles, normalized).value;
    AllCodesFound(s.roles, normalized);
    var s' := s.(userRoles := Reassign(s.userRoles, user, ids));
    ReassignedRows(s.userRoles, user, ids);
    UserRolesAreExact(s', user);
    hide AssignRoles, NormalizeCodes, FindAllOrThrow, Reassign, RoleCodes, PermissionCodes, Ascending, RegistrySound;
    forall u | u != user ensures RoleCodes(s', u) == RoleCodes(s, u) && PermissionCodes(s', u) == PermissionCodes(s, u) {
      SameRolesForOthers(s, s', u);
    }
  }

  lemma ReassignedRows(rel: Relation, key: int, ids: seq<int>)
    ensures forall k, id :: (k, id) in Reassign(rel, key, ids) <==> if k == key then id in ids else (k, id) in rel
  {
    hide Unique;
  }

  lemma SamePermissionsForOthers(s: Store, s': Store, role: int)
    requires s'.permissions == s.permissions
    requires forall p :: (role, p) in s'.rolePermissions <==> (role, p) in s.rolePermissions
    ensures RolePermissionCodes(s', role) == RolePermissionCodes(s, role)
  {
    RolePermissionsAreExact(s, role);
    RolePermissionsAreExact(s', role);
    hide RolePermissionCodes, Ascending;
    assert forall c :: Grants(s', role, c) <==> Grants(s, role, c);
    hide Grants;
    AscendingIsUnique(RolePermissionCodes(s', role), RolePermissionCodes(s, role));
  }

  /** Assigning permissions makes the role's list exactly the request and changes no other role's. */
  lemma AssignPermissionsExactly(s: Store, role: Option<string>, codes: Option<seq<Option<string>>>)
    requires RegistrySound(s.roles) && RegistrySound(s.permissions) && AssignPermissions(s, role, codes).Ok?
    ensures var s' := AssignPermissions(s, role, codes).value;
            var id := FindByCode(s.roles, Trim(role.value)).value;
            && (forall c :: c in RolePermissionCodes(s', id) <==> c in NormalizeCodes(codes).value)
            && (forall r :: r != id ==> RolePermissionCodes(s', r) == RolePermissionCodes(s, r))
  {
    AssignedPermissions(s, role, codes);
    var normalized := NormalizeCodes(codes).value;
    var id := GetOrThrow(s.roles, NormalizeCode(role).value).value;
    var ids := FindAllOrThrow(s.permissions, normalized).value;
    AllCodesFound(s.permissions, normalized);
    var s' := s.(rolePermissions := Reassign(s.rolePermissions, id, ids));
    ReassignedRows(s.rolePermissions, id, ids);
    RolePermissionsAreExact(s', id);
    hide AssignPermissions, NormalizeCodes, FindAllOrThrow, FindByCode, Trim;
    hide Reassign, RolePermissionCodes, Ascending, RegistrySound;
    forall r | r != id ensures RolePermissionCodes(s', r) == RolePermissionCodes(s, r) {
      SamePermissionsForOthers(s, s', r);
    }
  }

  /** Revoking a role takes exactly that one from exactly that user. */
  lemma RevokeRoleExactly(s: Store, user: int, code: Option<string>)
    requires RegistrySound(s.roles) && RevokeRole(s, user, code).Ok?
    ensures var s' := RevokeRole(s, user, code).value;
            && (forall c :: c in RoleCodes(s', user) <==> c in RoleCodes(s, user) && c != Trim(code.value))
            && (forall u :: u != user ==> RoleCodes(s', u) == RoleCodes(s, u) && PermissionCodes(s', u) == PermissionCodes(s, u))
  {
    var s' := RevokeRole(s, user, code).value;
    var id := FindByCode(s.roles, Trim(code.value)).value;
    UserRolesAreExact(s, user);
    UserRolesAreExact(s', user);
    assert s' == s.(userRoles := s'.userRoles);
    assert forall k, r :: (k, r) in s'.userRoles <==> (k, r) in s.userRoles && !(k == user && r == id);
    hide RevokeRole, FindByCode, Trim, RoleCodes, PermissionCodes, Ascending;
    forall u | u != user ensures RoleCodes(s', u) == RoleCodes(s, u) && PermissionCodes(s', u) == PermissionCodes(s, u) {
      SameRolesForOthers(s, s', u);
    }
  }

  /** Revoking a permission takes exactly that one from exactly that role. */
  lemma RevokePermissionExactly(s: Store, role: Option<string>, code: Option<string>)
    requires RegistrySound(s.permissions) && RevokePermission(s, role, code).Ok?
    ensures var s' := RevokePermission(s, role, code).value;
            var id := FindByCode(s.roles, Trim(role.value)).value;
            && (forall c :: c in RolePermissionCodes(s', id) <==> c in RolePermissionCodes(s, id) && c != Trim(code.value))
            && (forall r :: r != id ==> RolePermissionCodes(s', r) == RolePermissionCodes(s, r))
  {
    var s' := RevokePermission(s, role, code).value;
    var id := FindByCode(s.roles, Trim(role.value)).value;
    var permission := FindByCode(s.permissions, Trim(code.value)).value;
    RolePermissionsAreExact(s, id);
    RolePermissionsAreExact(s', id);
    assert s' == s.(rolePermissions := s'.rolePermissions);
    assert forall k, p :: (k, p) in s'.rolePermissions <==> (k, p) in s.rolePermissions && !(k == id && p == permission);
    hide RevokePermission, FindByCode, Trim, RolePermissionCodes, Ascending;
    forall r | r != id ensures RolePermissionCodes(s', r) == RolePermissionCodes(s, r) {
      SamePermissionsForOthers(s, s', r);
    }
  }

  /** A code names an entry. */
  ghost predicate Names(reg: Registry, code: string, id: int) {
    id in reg.rows && reg.rows[id].code == code
  }

  ghost predicate NonBlank(text: Option<string>) {
    text.Some? && !Blank(text.value, 0, |text.value|)
  }

  lemma CodeIsAccepted(code: Option<string>)
    ensures NormalizeCode(code).Ok? <==> NonBlank(code)
    ensures NormalizeCode(code).Err? ==> NormalizeCode(code).error == CodeMissing
    ensures NormalizeCode(code).Ok? ==> code.Some? && NormalizeCode(code).value == Trim(code.value)
  {
    if code.Some? {
      TrimIsExact(code.value);
    }
  }

  ghost predicate Named(reg: Registry, code: Option<string>) {
    NonBlank(code) && exists id :: Names(reg, Trim(code.value), id)
  }

  /** Some code of the list is not blank, and each that is not names an entry. */
  ghost predicate AllNamed(reg: Registry, codes: Option<seq<Option<string>>>) {
    && codes.Some? && (exists o :: o in codes.value && NonBlank(o))
    && forall o :: o in codes.value && NonBlank(o) ==> Named(reg, o)
  }

  lemma CodeIsNamed(reg: Registry, code: Option<string>)
    requires RegistrySound(reg)
    ensures Named(reg, code) <==> NormalizeCode(code).Ok? && GetOrThrow(reg, NormalizeCode(code).value).Ok?
    ensures NonBlank(code) && !Named(reg, code) ==> GetOrThrow(reg, Trim(code.value)) == Err(NotFound)
    ensures Named(reg, code) ==> Names(reg, Trim(code.value), GetOrThrow(reg, NormalizeCode(code).value).value)
  {
    CodeIsAccepted(code);
    if NonBlank(code) {
      RoleIsFound(reg, Trim(code.value));
    }
    hide NormalizeCode, NonBlank, Trim, FindByCode;
  }

  lemma TrimmedIsNonBlank(o: Option<string>)
    requires o.Some?
    ensures Trim(o.value) != [] <==> NonBlank(o)
  {
    TrimIsExact(o.value);
  }

  lemma CodesAreNormalized(codes: Option<seq<Option<string>>>)
    ensures NormalizeCodes(codes).Ok? <==> codes.Some? && exists o :: o in codes.value && NonBlank(o)
    ensures NormalizeCodes(codes).Err? ==> NormalizeCodes(codes).error == CodeMissing
    ensures NormalizeCodes(codes).Ok? ==>
      forall c :: c in NormalizeCodes(codes).value <==> exists o :: o in codes.value && NonBlank(o) && c == Trim(o.value)
  {
    if codes.Some? {
      forall o | o in codes.value && o.Some? ensures Trim(o.value) != [] <==> NonBlank(o) {
        TrimmedIsNonBlank(o);
      }
      hide Trim;
      var trimmed := TrimmedCodes(codes.value);
      assert forall c :: c in trimmed <==> exists o :: o in codes.value && NonBlank(o) && c == Trim(o.value);
      hide NonBlank, TrimmedCodes;
      var normalized := Distinct(trimmed);
      hide Distinct;
      if normalized != [] {
        assert normalized[0] in normalized;
      }
      forall o | o in codes.value && NonBlank(o) ensures normalized != [] {
        assert Trim(o.value) in normalized;
      }
    }
  }

  /** The list of codes is accepted exactly when it is named, and yields the entries it names. */
  lemma CodesAreNamed(reg: Registry, codes: Option<seq<Option<string>>>)
    requires RegistrySound(reg)
    ensures AllNamed(reg, codes) <==> NormalizeCodes(codes).Ok? && FindAllOrThrow(reg, NormalizeCodes(codes).value).Ok?
  {
    CodesAreNormalized(codes);
    hide NormalizeCodes, Blank, Trim;
    if NormalizeCodes(codes).Ok? {
      var normalized := NormalizeCodes(codes).value;
      FoundExactly(reg, normalized);
      hide FindAllOrThrow;
      forall o | o in codes.value && NonBlank(o)
        ensures Trim(o.value) in normalized && (Named(reg, o) <==> exists id :: Names(reg, Trim(o.value), id))
      {
      }
    }
  }

  lemma FoundExactly(reg: Registry, codes: seq<string>)
    requires RegistrySound(reg)
    ensures FindAllOrThrow(reg, codes).Ok? <==> forall c :: c in codes ==> exists id :: Names(reg, c, id)
    ensures FindAllOrThrow(reg, codes).Err? ==> FindAllOrThrow(reg, codes).error == NotFound
  {
    FoundByCodeIn(reg, codes);
    var ids := FindByCodeIn(reg, codes);
    var found := CodesAt(reg, ids);
    forall c | c in codes ensures c in found <==> exists id :: Names(reg, c, id) {
      if c in found {
        var id :| id in ids && id in reg.rows && reg.rows[id].code == c;
        assert Names(reg, c, id);
      }
      if id :| Names(reg, c, id) {
        assert id in ids;
      }
    }
    hide FindByCodeIn, CodesAt, RegistrySound, Names;
    assert (forall i :: 0 <= i < |codes| ==> codes[i] in found) <==> (forall c :: c in codes ==> c in found);
  }

  /** Assigning roles commits exactly for an existing account and a list of codes that are named; otherwise
      the error tells the first of the three that fails. */
  lemma AssignRolesCommits(s: Store, user: int, codes: Option<seq<Option<string>>>)
    requires RegistrySound(s.roles)
    ensures AssignRoles(s, user, codes).Ok? <==> user in s.users && AllNamed(s.roles, codes)
    ensures AssignRoles(s, user, codes).Err? ==>
      AssignRoles(s, user, codes).error
        == if user !in s.users then NoSuchUser
           else if codes.None? || forall o :: o in codes.value ==> !NonBlank(o) then CodeMissing
           else NotFound
  {
    CodesAreNormalized(codes);
    CodesAreNamed(s.roles, codes);
    if NormalizeCodes(codes).Ok? {
      FoundExactly(s.roles, NormalizeCodes(codes).value);
    }
    hide AllNamed, NormalizeCodes, FindAllOrThrow, RegistrySound, NonBlank;
  }

  /** Assigning permissions commits exactly for a named role and a list of named permissions. */
  lemma AssignPermissionsCommits(s: Store, role: Option<string>, codes: Option<seq<Option<string>>>)
    requires RegistrySound(s.roles) && RegistrySound(s.permissions)
    ensures AssignPermissions(s, role, codes).Ok? <==> Named(s.roles, role) && AllNamed(s.permissions, codes)
  {
    CodeIsNamed(s.roles, role);
    CodesAreNamed(s.permissions, codes);
    hide AllNamed, Named, NormalizeCode, NormalizeCodes, FindAllOrThrow, GetOrThrow, RegistrySound;
  }

  /** Revoking a role commits exactly when the account has the role that is named. */
  lemma RevokeRoleCommits(s: Store, user: int, code: Option<string>)
    requires RegistrySound(s.roles)
    ensures RevokeRole(s, user, code).Ok?
       <==> user in s.users && NonBlank(code) && exists id :: Names(s.roles, Trim(code.value), id) && (user, id) in s.userRoles
  {
    CodeIsNamed(s.roles, code);
    hide NormalizeCode, NonBlank, Trim;
    forall id, k | Named(s.roles, code) && Names(s.roles, Trim(code.value), id) && Names(s.roles, Trim(code.value), k) ensures id == k {
    }
    hide FindByCode, RegistrySound, Select;
  }

  /** Revoking a permission commits exactly when the role named holds the permission named. */
  lemma RevokePermissionCommits(s: Store, role: Option<string>, code: Option<string>)
    requires RegistrySound(s.roles) && RegistrySound(s.permissions)
    ensures RevokePermission(s, role, code).Ok?
       <==> && NonBlank(role) && NonBlank(code)
            && exists id, p :: Names(s.roles, Trim(role.value), id) && Names(s.permissions, Trim(code.value), p)
                               && (id, p) in s.rolePermissions
  {
    CodeIsNamed(s.roles, role);
    CodeIsNamed(s.permissions, code);
    hide NormalizeCode, NonBlank, Trim;
    if Named(s.roles, role) && Named(s.permissions, code) {
      var id := GetOrThrow(s.roles, NormalizeCode(role).value).value;
      var p := GetOrThrow(s.permissions, NormalizeCode(code).value).value;
      forall k | Names(s.roles, Trim(role.value), k) ensures k == id {
      }
      forall k | Names(s.permissions, Trim(code.value), k) ensures k == p {
      }
    }
    hide FindByCode, RegistrySound, Select, GetOrThrow;
  }

  /** Exactly this entry was added, under an id never used before. */
  ghost predicate Added(reg: Registry, reg': Registry, e: Entry) {
    && reg.next !in reg.rows && reg'.next == reg.next + 1
    && reg'.rows.Keys == reg.rows.Keys + {reg.next} && reg'.rows[reg.next] == e
    && forall id :: id in reg.rows ==> reg'.rows[id] == reg.rows[id]
  }

  /** Exactly this entry is gone. */
  ghost predicate Removed(reg: Registry, reg': Registry, id: int) {
    && reg'.next == reg.next && reg'.rows.Keys == reg.rows.Keys - {id}
    && forall k :: k in reg'.rows ==> reg'.rows[k] == reg.rows[k]
  }

  lemma CreateEntryExactly(reg: Registry, code: Option<string>, name: Option<string>, description: Option<string>)
    requires RegistrySound(reg)
    ensures CreateEntry(reg, code, name, description).Ok?
       <==> NonBlank(code) && NonBlank(name) && forall id :: !Names(reg, Trim(code.value), id)
    ensures CreateEntry(reg, code, name, description).Ok? ==>
      Added(reg, CreateEntry(reg, code, name, description).value,
            Entry(Trim(code.value), Trim(name.value), NormalizeNullableText(description), false))
  {
    CodeIsAccepted(code);
    CodeIsAccepted(name);
    hide NormalizeCode, NonBlank, Trim, NormalizeNullableText;
    if NormalizeCode(code).Ok? {
      var found := FindByCode(reg, NormalizeCode(code).value);
      if found.None? {
        NotFoundByCode(reg, NormalizeCode(code).value);
      } else {
        assert Names(reg, NormalizeCode(code).value, found.value);
      }
    }
    hide FindByCode;
  }

  /** What every user and every role may do is the same in both stores. */
  ghost predicate SameRights(s: Store, s': Store) {
    && (forall u :: RoleCodes(s', u) == RoleCodes(s, u) && PermissionCodes(s', u) == PermissionCodes(s, u))
    && (forall r :: r in s.roles.rows && r in s'.roles.rows ==> RolePermissionCodes(s', r) == RolePermissionCodes(s, r))
  }

  /** The rows a user's rights come from are the same. */
  ghost predicate SameUsedRows(s: Store, s': Store) {
    && s'.userRoles == s.userRoles
    && (forall r :: r in s.userRoles && r.1 in s.roles.rows ==> r.1 in s'.roles.rows && s'.roles.rows[r.1] == s.roles.rows[r.1])
    && (forall r :: r in s.userRoles && r.1 in s'.roles.rows ==> r.1 in s.roles.rows)
  }

  lemma SameRoleCodes(s: Store, s': Store, user: int)
    requires SameUsedRows(s, s')
    ensures RoleCodes(s', user) == RoleCodes(s, user)
  {
    UserRolesAreExact(s, user);
    UserRolesAreExact(s', user);
    hide RoleCodes, Ascending;
    forall c ensures BoundTo(s', user, c) <==> BoundTo(s, user, c) {
      if BoundTo(s, user, c) {
        var r :| (user, r) in s.userRoles && r in s.roles.rows && s.roles.rows[r].code == c;
        var row := (user, r);
        assert row in s.userRoles && row.1 in s'.roles.rows;
      }
      if BoundTo(s', user, c) {
        var r :| (user, r) in s'.userRoles && r in s'.roles.rows && s'.roles.rows[r].code == c;
        var row := (user, r);
        assert row in s.userRoles && row.1 in s.roles.rows;
      }
    }
    hide BoundTo, SameUsedRows;
    AscendingIsUnique(RoleCodes(s', user), RoleCodes(s, user));
  }

  lemma SameGrants(s: Store, s': Store, role: int)
    requires forall c :: Grants(s', role, c) <==> Grants(s, role, c)
    ensures RolePermissionCodes(s', role) == RolePermissionCodes(s, role)
  {
    RolePermissionsAreExact(s, role);
    RolePermissionsAreExact(s', role);
    hide RolePermissionCodes, Ascending, Grants;
    AscendingIsUnique(RolePermissionCodes(s', role), RolePermissionCodes(s, role));
  }

  lemma SameUserPermissions(s: Store, s': Store, user: int)
    requires s'.userRoles == s.userRoles
    requires forall r :: (user, r) in s.userRoles ==> RolePermissionCodes(s', r) == RolePermissionCodes(s, r)
    ensures PermissionCodes(s', user) == PermissionCodes(s, user)
  {
    UserPermissionsAreUnion(s, user);
    UserPermissionsAreUnion(s', user);
    hide PermissionCodes, RolePermissionCodes, Ascending;
    AscendingIsUnique(PermissionCodes(s', user), PermissionCodes(s, user));
  }

  /** Creating a role commits exactly for a code that is not blank and not taken and a name that is not
      blank; then one custom role without permissions is added and nobody's rights change. */
  lemma CreateRoleExactly(s: Store, code: Option<string>, name: Option<string>, description: Option<string>)
    requires Integrity(s)
    ensures CreateRole(s, code, name, description).Ok?
       <==> NonBlank(code) && NonBlank(name) && forall id :: !Names(s.roles, Trim(code.value), id)
    ensures CreateRole(s, code, name, description).Ok? ==>
      var s' := CreateRole(s, code, name, description).value;
      && s' == s.(roles := s'.roles) && SameRights(s, s') && RolePermissionCodes(s', s.roles.next) == []
      && Added(s.roles, s'.roles, Entry(Trim(code.value), Trim(name.value), NormalizeNullableText(description), false))
  {
    CreateEntryExactly(s.roles, code, name, description);
    if CreateRole(s, code, name, description).Ok? {
      var s' := CreateRole(s, code, name, description).value;
      hide CreateEntry, NonBlank, Names, Trim, NormalizeNullableText;
      RoleAdded(s, s', Entry(Trim(code.value), Trim(name.value), NormalizeNullableText(description), false));
    }
  }

  lemma RoleAdded(s: Store, s': Store, e: Entry)
    requires Integrity(s) && s' == s.(roles := s'.roles) && Added(s.roles, s'.roles, e)
    ensures SameRights(s, s') && RolePermissionCodes(s', s.roles.next) == []
  {
    assert SameUsedRows(s, s') by {
      hide RegistrySound, RolePermissionsSound, Unique;
      forall r | r in s.userRoles ensures r.1 in s.roles.rows && s'.roles.rows[r.1] == s.roles.rows[r.1] {
        var id := r.1;
        assert id in s.roles.rows;
      }
    }
    var id := s.roles.next;
    assert forall p :: (id, p) !in s.rolePermissions by {
      forall p ensures (id, p) !in s.rolePermissions {
        var row := (id, p);
        assert row in s.rolePermissions ==> row.0 in s.roles.rows;
      }
    }
    RolePermissionsAreExact(s', id);
    hide Integrity, SameUsedRows, Added;
    SameForAll(s, s');
    NoGrants(s', id);
  }

  lemma NoGrants(s: Store, role: int)
    requires forall p :: (role, p) !in s.rolePermissions
    ensures RolePermissionCodes(s, role) == []
  {
    RolePermissionsAreExact(s, role);
    assert Ascending([]);
    hide RolePermissionCodes, Ascending;
    AscendingIsUnique(RolePermissionCodes(s, role), []);
  }

  lemma SameForAll(s: Store, s': Store)
    requires SameUsedRows(s, s') && s'.rolePermissions == s.rolePermissions && s'.permissions == s.permissions
    ensures SameRights(s, s')
  {
    forall r ensures RolePermissionCodes(s', r) == RolePermissionCodes(s, r) {
      assert forall c :: Grants(s', r, c) <==> Grants(s, r, c);
      SameGrants(s, s', r);
    }
    hide RoleCodes, PermissionCodes, RolePermissionCodes;
    forall u ensures RoleCodes(s', u) == RoleCodes(s, u) && PermissionCodes(s', u) == PermissionCodes(s, u) {
      SameRoleCodes(s, s', u);
      SameUserPermissions(s, s', u);
    }
  }

  /** The same for a permission, which no role has yet. */
  lemma CreatePermissionExactly(s: Store, code: Option<string>, name: Option<string>, description: Option<string>)
    requires Integrity(s)
    ensures CreatePermission(s, code, name, description).Ok?
       <==> NonBlank(code) && NonBlank(name) && forall id :: !Names(s.permissions, Trim(code.value), id)
    ensures CreatePermission(s, code, name, description).Ok? ==>
      var s' := CreatePermission(s, code, name, description).value;
      && s' == s.(permissions := s'.permissions) && SameRights(s, s')
      && Added(s.permissions, s'.permissions,
               Entry(Trim(code.value), Trim(name.value), NormalizeNullableText(description), false))
  {
    CreateEntryExactly(s.permissions, code, name, description);
    if CreatePermission(s, code, name, description).Ok? {
      var s' := CreatePermission(s, code, name, description).value;
      hide CreateEntry, NonBlank, Names, Trim, NormalizeNullableText;
      var e := Entry(Trim(code.value), Trim(name.value), NormalizeNullableText(description), false);
      assert SameGrantedRows(s, s') by {
        hide RegistrySound, UserRolesSound, Unique;
      }
      hide Integrity, Added;
      SamePermissionRows(s, s');
    }
  }

  /** The permissions that role rows refer to are the same. */
  ghost predicate SameGrantedRows(s: Store, s': Store) {
    && s'.userRoles == s.userRoles && s'.rolePermissions == s.rolePermissions && s'.roles == s.roles
    && forall r :: r in s.rolePermissions ==>
         r.1 in s.permissions.rows && r.1 in s'.permissions.rows && s'.permissions.rows[r.1] == s.permissions.rows[r.1]
  }

  lemma SamePermissionRows(s: Store, s': Store)
    requires SameGrantedRows(s, s')
    ensures SameRights(s, s')
  {
    forall r ensures RolePermissionCodes(s', r) == RolePermissionCodes(s, r) {
      forall c ensures Grants(s', r, c) <==> Grants(s, r, c) {
        GrantsStay(s, s', r, c);
      }
      SameGrants(s, s', r);
    }
    hide RoleCodes, PermissionCodes, RolePermissionCodes;
    assert SameUsedRows(s, s');
    forall u ensures RoleCodes(s', u) == RoleCodes(s, u) && PermissionCodes(s', u) == PermissionCodes(s, u) {
      SameRoleCodes(s, s', u);
      SameUserPermissions(s, s', u);
    }
  }

  lemma GrantsStay(s: Store, s': Store, role: int, code: string)
    requires SameGrantedRows(s, s')
    ensures Grants(s', role, code) <==> Grants(s, role, code)
  {
    forall p | (role, p) in s.rolePermissions
      ensures p in s.permissions.rows && p in s'.permissions.rows && s'.permissions.rows[p] == s.permissions.rows[p]
    {
      var row := (role, p);
      assert row in s.rolePermissions;
    }
  }

  /** A custom entry of that code which no row refers to. */
  ghost predicate Disposable(reg: Registry, rel: Relation, code: string, id: int) {
    Names(reg, code, id) && !reg.rows[id].builtin && forall r :: r in rel ==> r.1 != id
  }

  /** Deleting a role commits exactly when the code names a custom role that no user has; then exactly that
      role and its permission rows go, and nobody's rights change. */
  lemma DeleteRoleExactly(s: Store, code: Option<string>)
    requires Integrity(s)
    ensures DeleteRole(s, code).Ok?
       <==> NonBlank(code) && exists id :: Disposable(s.roles, s.userRoles, Trim(code.value), id)
    ensures DeleteRole(s, code).Ok? ==>
      forall id :: Disposable(s.roles, s.userRoles, Trim(code.value), id) ==>
        var s' := DeleteRole(s, code).value;
        && s' == s.(roles := s'.roles, rolePermissions := s'.rolePermissions) && SameRights(s, s')
        && Removed(s.roles, s'.roles, id)
        && forall r :: r in s'.rolePermissions <==> r in s.rolePermissions && r.0 != id
  {
    CodeIsAccepted(code);
    hide NormalizeCode, NonBlank, Trim, Unique;
    if NormalizeCode(code).Ok? {
      var text := Trim(code.value);
      var found := FindByCode(s.roles, text);
      forall id | Names(s.roles, text, id) ensures found == Some(id) {
        FoundByCode(s.roles, text, id);
      }
      hide FindByCode;
      if found.Some? && Disposable(s.roles, s.userRoles, text, found.value) {
        RoleDeleted(s, DeleteRole(s, code).value, found.value);
      }
    }
  }

  lemma RoleDeleted(s: Store, s': Store, id: int)
    requires Integrity(s) && id in s.roles.rows && forall r :: r in s.userRoles ==> r.1 != id
    requires s' == s.(roles := Registry(s.roles.rows - {id}, s.roles.next),
                      rolePermissions := Select(s.rolePermissions, (r: (int, int)) => r.0 != id))
    ensures SameRights(s, s') && Removed(s.roles, s'.roles, id)
    ensures forall r :: r in s'.rolePermissions <==> r in s.rolePermissions && r.0 != id
  {
    hide Integrity, Unique;
    assert SameUsedRows(s, s');
    forall r | r != id ensures RolePermissionCodes(s', r) == RolePermissionCodes(s, r) {
      assert forall p :: (r, p) in s'.rolePermissions <==> (r, p) in s.rolePermissions;
      SamePermissionsForOthers(s, s', r);
    }
    hide RoleCodes, PermissionCodes, RolePermissionCodes, Select;
    forall u ensures RoleCodes(s', u) == RoleCodes(s, u) && PermissionCodes(s', u) == PermissionCodes(s, u) {
      SameRoleCodes(s, s', u);
      forall r | (u, r) in s.userRoles ensures RolePermissionCodes(s', r) == RolePermissionCodes(s, r) {
        var row := (u, r);
        assert row in s.userRoles && row.1 != id;
      }
      SameUserPermissions(s, s', u);
    }
  }

  /** Deleting a permission commits exactly when the code names a custom permission that no role has; then
      exactly that entry goes, and no role's and no user's rights change. */
  lemma DeletePermissionExactly(s: Store, code: Option<string>)
    requires Integrity(s)
    ensures DeletePermission(s, code).Ok?
       <==> NonBlank(code) && exists id :: Disposable(s.permissions, s.rolePermissions, Trim(code.value), id)
    ensures DeletePermission(s, code).Ok? ==>
      forall id :: Disposable(s.permissions, s.rolePermissions, Trim(code.value), id) ==>
        var s' := DeletePermission(s, code).value;
        s' == s.(permissions := s'.permissions) && SameRights(s, s') && Removed(s.permissions, s'.permissions, id)
  {
    CodeIsAccepted(code);
    hide NormalizeCode, NonBlank, Trim, Unique;
    if NormalizeCode(code).Ok? {
      var text := Trim(code.value);
      var found := FindByCode(s.permissions, text);
      forall id | Names(s.permissions, text, id) ensures found == Some(id) {
        FoundByCode(s.permissions, text, id);
      }
      hide FindByCode;
      if found.Some? && Disposable(s.permissions, s.rolePermissions, text, found.value) {
        PermissionDeleted(s, DeletePermission(s, code).value, found.value);
      }
    }
  }

  lemma PermissionDeleted(s: Store, s': Store, id: int)
    requires Integrity(s) && id in s.permissions.rows && forall r :: r in s.rolePermissions ==> r.1 != id
    requires s' == s.(permissions := Registry(s.permissions.rows - {id}, s.permissions.next))
    ensures SameRights(s, s') && Removed(s.permissions, s'.permissions, id)
  {
    assert SameGrantedRows(s, s') by {
      hide RegistrySound, UserRolesSound, Unique;
    }
    hide Integrity;
    SamePermissionRows(s, s');
  }

  /** Signing up succeeds exactly for a new account on a server with both built-in roles. The account gets
      the user role, and the super administrator's too exactly when it is the server's first account; nobody
      else's rights change. */
  lemma SignUpExactly(s: Store, cid: int)
    requires Integrity(s)
    ensures SignUp(s, cid).Ok?
       <==> && cid !in s.users
            && (exists id :: Names(s.roles, "user", id)) && (exists id :: Names(s.roles, "super-admin", id))
    ensures SignUp(s, cid).Ok? ==>
      var s' := SignUp(s, cid).value;
      && s' == s.(users := s'.users, userRoles := s'.userRoles)
      && (forall u :: u in s'.users <==> u in s.users || u == cid)
      && (forall c :: c in RoleCodes(s', cid) <==> c == "user" || (c == "super-admin" && s.users == []))
      && (forall u :: u != cid ==> RoleCodes(s', u) == RoleCodes(s, u) && PermissionCodes(s', u) == PermissionCodes(s, u))
  {
    RoleIsFound(s.roles, ROLE_USER);
    RoleIsFound(s.roles, ROLE_SUPER_ADMIN);
    if SignUp(s, cid).Ok? {
      SignedUp(s, cid);
    }
    hide Integrity, FindByCode, Ensure, AddUser, RoleCodes, PermissionCodes, Names, Mentions;
  }

  lemma RoleIsFound(reg: Registry, code: string)
    requires RegistrySound(reg)
    ensures FindByCode(reg, code).Some? <==> exists id :: Names(reg, code, id)
  {
    if FindByCode(reg, code).Some? {
      assert Names(reg, code, FindByCode(reg, code).value);
    } else {
      NotFoundByCode(reg, code);
    }
    hide FindByCode;
  }

  lemma SignedUp(s: Store, cid: int)
    requires Integrity(s) && SignUp(s, cid).Ok?
    ensures var s' := SignUp(s, cid).value;
      && (forall c :: c in RoleCodes(s', cid) <==> c == "user" || (c == "super-admin" && s.users == []))
      && (forall u :: u != cid ==> RoleCodes(s', u) == RoleCodes(s, u) && PermissionCodes(s', u) == PermissionCodes(s, u))
  {
    var s' := SignUp(s, cid).value;
    var userRole, superAdmin := FindByCode(s.roles, ROLE_USER).value, FindByCode(s.roles, ROLE_SUPER_ADMIN).value;
    SignUpRows(s, cid, userRole, superAdmin);
    UserRolesAreExact(s', cid);
    hide SignUp, FindByCode, Integrity, RoleCodes, PermissionCodes, Ascending;
    forall u | u != cid ensures RoleCodes(s', u) == RoleCodes(s, u) && PermissionCodes(s', u) == PermissionCodes(s, u) {
      SameRolesForOthers(s, s', u);
    }
  }

  lemma SignUpRows(s: Store, cid: int, userRole: int, superAdmin: int)
    requires Integrity(s) && SignUp(s, cid).Ok?
    requires FindByCode(s.roles, ROLE_USER) == Some(userRole) && FindByCode(s.roles, ROLE_SUPER_ADMIN) == Some(superAdmin)
    ensures var s' := SignUp(s, cid).value;
      && s' == s.(users := s'.users, userRoles := s'.userRoles)
      && forall k, r :: (k, r) in s'.userRoles
           <==> (k, r) in s.userRoles || (k == cid && (r == userRole || (r == superAdmin && s.users == [])))
    ensures forall r :: (cid, r) !in s.userRoles
    ensures s.roles.rows[userRole].code == ROLE_USER && s.roles.rows[superAdmin].code == ROLE_SUPER_ADMIN
  {
    hide FindByCode, Unique, RegistrySound, RolePermissionsSound;
    forall r ensures (cid, r) !in s.userRoles {
      var row := (cid, r);
      assert row in s.userRoles ==> row.0 in s.users;
    }
    var bound := Ensure(s.userRoles, cid, userRole);
    assert s.users == [] ==> !Mentions(bound, superAdmin) by {
      forall r | r in s.userRoles ensures s.users != [] {
        var u := r.0;
        assert u in s.users;
      }
    }
    assert |AddUser(s.users, cid)| == 1 <==> s.users == [];
    hide AddUser;
  }

  /** Deleting a role that was just created puts the tables back; only its id is used up. */
  lemma DeleteUndoesCreate(s: Store, code: Option<string>, name: Option<string>, description: Option<string>)
    requires Integrity(s) && CreateRole(s, code, name, description).Ok?
    ensures DeleteRole(CreateRole(s, code, name, description).value, code)
         == Ok(s.(roles := Registry(s.roles.rows, s.roles.next + 1)))
  {
    CreatedEntry(s.roles, code, name, description);
    var created := CreateRole(s, code, name, description).value;
    var id := s.roles.next;
    hide Unique, Trim, NormalizeNullableText;
    FoundByCode(created.roles, NormalizeCode(code).value, id);
    hide FindByCode;
    assert created.roles.rows - {id} == s.roles.rows;
    KeepAll(s.rolePermissions, (r: (int, int)) => r.0 != id);
  }

  lemma {:induction false} KeepAll(rel: Relation, p: ((int, int)) -> bool)
    requires forall r :: r in rel ==> p(r)
    ensures Select(rel, p) == rel
  {
    hide Unique;
    if rel != [] {
      var init, last := rel[..|rel| - 1], rel[|rel| - 1];
      assert rel == init + [last] && last in rel;
      KeepAll(init, p);
    }
  }

  // ----- what bootstrap gives, by the codes -----

  lemma {:induction false} EnsuredKeepCodes(reg: Registry, entries: seq<Entry>)
    requires RegistrySound(reg) && forall e :: e in entries ==> e.builtin
    ensures var reg' := EnsureEntries(reg, entries);
      forall id :: id in reg.rows ==> id in reg'.rows && reg'.rows[id].code == reg.rows[id].code
  {
    if entries != [] {
      var init, last := entries[..|entries| - 1], entries[|entries| - 1];
      assert entries == init + [last];
      EnsuredKeepCodes(reg, init);
      EnsuredEntries(reg, init);
      EnsuredEntry(EnsureEntries(reg, init), last);
      hide EnsureEntry, HasAll, BuiltinsKept;
    }
  }

  /** Somebody is a super administrator. */
  ghost predicate HasSuperAdmin(s: Store) {
    exists u :: BoundTo(s, u, "super-admin")
  }

  lemma IdOfIs(reg: Registry, entries: seq<Entry>, code: string)
    requires RegistrySound(reg) && HasAll(reg, entries) && exists e :: e in entries && e.code == code
    ensures IdOf(reg, code) in reg.rows && reg.rows[IdOf(reg, code)].code == code
    ensures forall id :: id in reg.rows && reg.rows[id].code == code ==> id == IdOf(reg, code)
  {
    var e :| e in entries && e.code == code;
    assert HasBuiltin(reg, e.code);
    hide FindByCode;
  }

  /** Bootstrap leaves every role under its code, the two built-in ones among them, once each. */
  ghost predicate RolesThere(s: Store, s': Store, userRole: int, superAdmin: int) {
    && (forall id :: id in s.roles.rows ==> id in s'.roles.rows && s'.roles.rows[id].code == s.roles.rows[id].code)
    && userRole in s'.roles.rows && s'.roles.rows[userRole].code == "user"
    && superAdmin in s'.roles.rows && s'.roles.rows[superAdmin].code == "super-admin"
    && (forall id :: id in s'.roles.rows && s'.roles.rows[id].code == "user" ==> id == userRole)
    && (forall id :: id in s'.roles.rows && s'.roles.rows[id].code == "super-admin" ==> id == superAdmin)
  }

  lemma BootstrapRoles(s: Store)
    requires Integrity(s)
    ensures var s' := Bootstrap(s); RolesThere(s, s', IdOf(s'.roles, "user"), IdOf(s'.roles, "super-admin"))
  {
    hide BUILTIN_ROLES, BUILTIN_PERMISSIONS, EnsureEntries, RegistrySound, HasAll, IdOf, EnsureAll, IdsOf, EnsureUsers, Ensure;
    hide BuiltinsKept, UserRolesSound, RolePermissionsSound, EnsureSuperAdmin;
    BuiltinEntries();
    BootstrapEquips(s);
    EnsuredKeepCodes(s.roles, BUILTIN_ROLES);
    var roles := Bootstrap(s).roles;
    IdOfIs(roles, BUILTIN_ROLES, "user");
    IdOfIs(roles, BUILTIN_ROLES, "super-admin");
  }

  lemma SuperAdminAdded(rel: Relation, users: seq<int>, userRole: int, superAdmin: int)
    requires userRole != superAdmin
    ensures forall r :: r in EnsureSuperAdmin(EnsureUsers(rel, users, userRole), users, superAdmin) <==>
      || r in rel || (r.0 in users && r.1 == userRole)
      || (!Mentions(rel, superAdmin) && users != [] && r == (users[0], superAdmin))
  {
    var ensured := EnsureUsers(rel, users, userRole);
    assert Mentions(ensured, superAdmin) <==> Mentions(rel, superAdmin) by {
      if Mentions(rel, superAdmin) {
        var r :| r in rel && r.1 == superAdmin;
        assert r in ensured;
      }
    }
    hide EnsureUsers, Mentions;
  }

  /** The rows that bind users to roles after bootstrap. */
  ghost predicate RoleRows(s: Store, s': Store, userRole: int, superAdmin: int) {
    forall r :: r in s'.userRoles <==>
      || r in s.userRoles || (r.0 in s.users && r.1 == userRole)
      || (!Mentions(s.userRoles, superAdmin) && s.users != [] && r == (s.users[0], superAdmin))
  }

  lemma BootstrapRoleRows(s: Store)
    requires Integrity(s)
    ensures var s' := Bootstrap(s); RoleRows(s, s', IdOf(s'.roles, "user"), IdOf(s'.roles, "super-admin"))
  {
    BootstrapRoles(s);
    hide BUILTIN_ROLES, BUILTIN_PERMISSIONS, EnsureEntries, RegistrySound, IdOf, EnsureAll, IdsOf, EnsureUsers, Ensure;
    hide UserRolesSound, RolePermissionsSound, EnsureSuperAdmin, Mentions;
    var s' := Bootstrap(s);
    SuperAdminAdded(s.userRoles, s.users, IdOf(s'.roles, "user"), IdOf(s'.roles, "super-admin"));
  }

  lemma SuperAdminMentioned(s: Store, s': Store, userRole: int, superAdmin: int)
    requires UserRolesSound(s) && RolesThere(s, s', userRole, superAdmin)
    ensures Mentions(s.userRoles, superAdmin) <==> HasSuperAdmin(s)
  {
    hide Unique;
    if Mentions(s.userRoles, superAdmin) {
      var r :| r in s.userRoles && r.1 == superAdmin;
      assert (r.0, superAdmin) in s.userRoles;
      assert BoundTo(s, r.0, "super-admin");
    }
    if u :| BoundTo(s, u, "super-admin") {
      var id :| (u, id) in s.userRoles && id in s.roles.rows && s.roles.rows[id].code == "super-admin";
      assert (u, id).1 == superAdmin;
    }
  }

  /** Bootstrap gives every account the role "user", and the role "super-admin" to the first account if
      nobody has it; every other role is held as before. */
  lemma BootstrapRolesExactly(s: Store, user: int, code: string)
    requires Integrity(s)
    ensures code in RoleCodes(Bootstrap(s), user) <==>
      || code in RoleCodes(s, user)
      || (code == "user" && user in s.users)
      || (code == "super-admin" && !HasSuperAdmin(s) && s.users != [] && user == s.users[0])
  {
    var s' := Bootstrap(s);
    UserRolesAreExact(s, user);
    UserRolesAreExact(s', user);
    BootstrapRoles(s);
    BootstrapRoleRows(s);
    hide Bootstrap, IdOf, RoleCodes, Ascending, RegistrySound, Unique, RolePermissionsSound;
    var userRole, superAdmin := IdOf(s'.roles, "user"), IdOf(s'.roles, "super-admin");
    SuperAdminMentioned(s, s', userRole, superAdmin);
    BoundAfter(s, s', userRole, superAdmin, user, code);
  }

  lemma BoundAfter(s: Store, s': Store, userRole: int, superAdmin: int, user: int, code: string)
    requires UserRolesSound(s) && RolesThere(s, s', userRole, superAdmin) && RoleRows(s, s', userRole, superAdmin)
    ensures BoundTo(s', user, code) <==>
      || BoundTo(s, user, code)
      || (code == "user" && user in s.users)
      || (code == "super-admin" && !Mentions(s.userRoles, superAdmin) && s.users != [] && user == s.users[0])
  {
    hide Mentions, Unique;
    if BoundTo(s, user, code) {
      var id :| (user, id) in s.userRoles && id in s.roles.rows && s.roles.rows[id].code == code;
      assert (user, id) in s'.userRoles;
    }
    if code == "user" && user in s.users {
      assert (user, userRole) in s'.userRoles;
    }
    if code == "super-admin" && !Mentions(s.userRoles, superAdmin) && s.users != [] && user == s.users[0] {
      assert (user, superAdmin) in s'.userRoles;
    }
    if BoundTo(s', user, code) {
      var id :| (user, id) in s'.userRoles && id in s'.roles.rows && s'.roles.rows[id].code == code;
      assert (user, id) in s.userRoles ==> (user, id).1 in s.roles.rows;
      if (user, id) in s.userRoles {
        assert BoundTo(s, user, code);
      }
    }
  }

  /** The codes of the built-in permissions. */
  const MANAGEMENT: seq<string> := [
    "system:profile:read", "system:rbac:catalog:read", "system:rbac:user:read",
    "system:rbac:role:create", "system:rbac:role:delete", "system:rbac:permission:create", "system:rbac:permission:delete",
    "system:rbac:user-role:assign", "system:rbac:user-role:revoke",
    "system:rbac:role-permission:assign", "system:rbac:role-permission:revoke"]

  lemma BuiltinCodes()
    ensures |BUILTIN_PERMISSIONS| == |MANAGEMENT|
    ensures forall i :: 0 <= i < |MANAGEMENT| ==> BUILTIN_PERMISSIONS[i].code == MANAGEMENT[i]
  {
  }

  lemma BuiltinCode(code: string)
    ensures code in MANAGEMENT <==> exists e :: e in BUILTIN_PERMISSIONS && e.code == code
  {
    BuiltinCodes();
    hide MANAGEMENT, BUILTIN_PERMISSIONS;
    if code in MANAGEMENT {
      var i :| 0 <= i < |MANAGEMENT| && MANAGEMENT[i] == code;
      assert BUILTIN_PERMISSIONS[i] in BUILTIN_PERMISSIONS;
    }
    if e :| e in BUILTIN_PERMISSIONS && e.code == code {
      var i :| 0 <= i < |BUILTIN_PERMISSIONS| && BUILTIN_PERMISSIONS[i] == e;
      assert MANAGEMENT[i] == code;
    }
  }

  /** The rows that grant permissions after bootstrap. */
  ghost predicate GrantRows(s: Store, s': Store, userRole: int, superAdmin: int) {
    && (forall id :: id in s.permissions.rows ==>
          id in s'.permissions.rows && s'.permissions.rows[id].code == s.permissions.rows[id].code)
    && IsPermission(s', IdOf(s'.permissions, "system:profile:read"), "system:profile:read")
    && (forall e :: e in BUILTIN_PERMISSIONS ==> IsPermission(s', IdOf(s'.permissions, e.code), e.code))
    && forall r :: r in s'.rolePermissions <==>
         || r in s.rolePermissions || r == (userRole, IdOf(s'.permissions, "system:profile:read"))
         || (r.0 == superAdmin && exists e :: e in BUILTIN_PERMISSIONS && r.1 == IdOf(s'.permissions, e.code))
  }

  predicate IsPermission(s: Store, id: int, code: string) {
    id in s.permissions.rows && s.permissions.rows[id].code == code
  }

  lemma BootstrapGrantRows(s: Store)
    requires Integrity(s)
    ensures var s' := Bootstrap(s); GrantRows(s, s', IdOf(s'.roles, "user"), IdOf(s'.roles, "super-admin"))
  {
    hide BUILTIN_ROLES, BUILTIN_PERMISSIONS, EnsureEntries, RegistrySound, HasAll, IdOf, EnsureUsers, EnsureAll, Ensure;
    hide BuiltinsKept, UserRolesSound, RolePermissionsSound, EnsureSuperAdmin, IdsOf;
    BuiltinEntries();
    BootstrapEquips(s);
    EnsuredKeepCodes(s.permissions, BUILTIN_PERMISSIONS);
    var permissions := Bootstrap(s).permissions;
    forall e | e in BUILTIN_PERMISSIONS ensures IsPermission(Bootstrap(s), IdOf(permissions, e.code), e.code) {
      IdOfIs(permissions, BUILTIN_PERMISSIONS, e.code);
    }
    IdOfIs(permissions, BUILTIN_PERMISSIONS, "system:profile:read");
    IdsOfIs(permissions, BUILTIN_PERMISSIONS);
  }

  lemma IdsOfIs(reg: Registry, entries: seq<Entry>)
    ensures forall id :: id in IdsOf(reg, entries) <==> exists e :: e in entries && id == IdOf(reg, e.code)
  {
    hide IdOf;
    var ids := IdsOf(reg, entries);
    forall e | e in entries ensures IdOf(reg, e.code) in ids {
      var i :| 0 <= i < |entries| && entries[i] == e;
      assert ids[i] == IdOf(reg, e.code);
    }
  }

  lemma GrantedAfter(s: Store, s': Store, userRole: int, superAdmin: int, role: int, code: string)
    requires RolePermissionsSound(s) && RegistrySound(s'.permissions) && GrantRows(s, s', userRole, superAdmin)
    ensures Grants(s', role, code) <==>
      || Grants(s, role, code)
      || (role == userRole && code == "system:profile:read")
      || (role == superAdmin && exists e :: e in BUILTIN_PERMISSIONS && e.code == code)
  {
    hide Unique, BUILTIN_PERMISSIONS, IdOf;
    if Grants(s, role, code) {
      var p :| (role, p) in s.rolePermissions && p in s.permissions.rows && s.permissions.rows[p].code == code;
      assert (role, p) in s'.rolePermissions;
    }
    if role == userRole && code == "system:profile:read" {
      assert (role, IdOf(s'.permissions, code)) in s'.rolePermissions;
    }
    if role == superAdmin {
      if e :| e in BUILTIN_PERMISSIONS && e.code == code {
        assert (role, IdOf(s'.permissions, e.code)) in s'.rolePermissions;
      }
    }
    if Grants(s', role, code) {
      var p :| (role, p) in s'.rolePermissions && IsPermission(s', p, code);
      if (role, p) in s.rolePermissions {
        assert (role, p).1 in s.permissions.rows;
      }
    }
  }

  /** Bootstrap grants "system:profile:read" to the role "user" and all of the management permissions to the
      role "super-admin"; every other grant is as before. */
  lemma BootstrapGrantsExactly(s: Store, role: int, code: string)
    requires Integrity(s) && role in Bootstrap(s).roles.rows
    ensures var roleCode := Bootstrap(s).roles.rows[role].code;
      code in RolePermissionCodes(Bootstrap(s), role) <==>
        || code in RolePermissionCodes(s, role)
        || (roleCode == "user" && code == "system:profile:read")
        || (roleCode == "super-admin" && code in MANAGEMENT)
  {
    var s' := Bootstrap(s);
    RolePermissionsAreExact(s, role);
    RolePermissionsAreExact(s', role);
    BootstrapRoles(s);
    BootstrapGrantRows(s);
    BootstrapKeeps(s);
    BuiltinCode(code);
    hide Bootstrap, IdOf, RolePermissionCodes, Ascending, UserRolesSound, MANAGEMENT, BUILTIN_PERMISSIONS, Granted, Equipped;
    hide GrantRows;
    GrantedAfter(s, s', IdOf(s'.roles, "user"), IdOf(s'.roles, "super-admin"), role, code);
  }

  // ----- the services -----

  lemma {:induction false} SelectSame(rel: Relation, p: ((int, int)) -> bool, q: ((int, int)) -> bool)
    requires forall r :: r in rel ==> p(r) == q(r)
    ensures Select(rel, p) == Select(rel, q)
  {
    if rel == [] {
    } else {
      var init, last := rel[..|rel| - 1], rel[|rel| - 1];
      assert rel == init + [last] && last in rel;
      SelectSame(init, p, q);
      hide Unique;
    }
  }

  /** Deleting the key's rows outside the target ids, found first, is the selection Reassign makes. */
  lemma DeletedRows(rel: Relation, key: int, ids: seq<int>, toRemove: Relation)
    requires toRemove == Select(RowsOf(rel, key), (r: (int, int)) => r.1 !in ids)
    ensures Select(rel, (r: (int, int)) => r !in toRemove)
         == Select(rel, (r: (int, int)) => r.0 != key || r.1 in ids)
  {
    hide Unique;
    SelectSame(rel, (r: (int, int)) => r !in toRemove, (r: (int, int)) => r.0 != key || r.1 in ids);
  }

  lemma EnsureAllStep(rel: Relation, key: int, ids: seq<int>, i: nat)
    requires i < |ids|
    ensures EnsureAll(rel, key, ids[..i + 1]) == Ensure(EnsureAll(rel, key, ids[..i]), key, ids[i])
  {
    assert ids[..i + 1][..i] == ids[..i];
    hide Unique;
  }

  lemma EnsureEntriesStep(reg: Registry, entries: seq<Entry>, i: nat)
    requires i < |entries|
    ensures EnsureEntries(reg, entries[..i + 1]) == EnsureEntry(EnsureEntries(reg, entries[..i]), entries[i])
  {
    assert entries[..i + 1][..i] == entries[..i];
  }

  lemma EnsureUsersStep(rel: Relation, users: seq<int>, role: int, i: nat)
    requires i < |users|
    ensures EnsureUsers(rel, users[..i + 1], role) == Ensure(EnsureUsers(rel, users[..i], role), users[i], role)
  {
    assert users[..i + 1][..i] == users[..i];
    hide Unique;
  }

  /** The roles and permissions of a user, as the services return them. */
  datatype Authorization = Authorization(user: int, roles: seq<string>, permissions: seq<string>)

  function AuthorizationOf(s: Store, user: int): Authorization {
    Authorization(user, RoleCodes(s, user), PermissionCodes(s, user))
  }

  class Services {
    var users: seq<int>
    var roles: Registry
    var permissions: Registry
    var userRoles: Relation
    var rolePermissions: Relation

    function Db(): Store
      reads this
    {
      Store(users, roles, permissions, userRoles, rolePermissions)
    }

    constructor (s: Store)
      ensures Db() == s
    {
      users, roles, permissions := s.users, s.roles, s.permissions;
      userRoles, rolePermissions := s.userRoles, s.rolePermissions;
    }

    method EnsureUserRole(user: int, role: int)
      modifies this`userRoles
      ensures userRoles == Ensure(old(userRoles), user, role)
    {
      if (user, role) !in userRoles {
        userRoles := userRoles + [(user, role)];
      }
    }

    method EnsureRolePermission(role: int, permission: int)
      modifies this`rolePermissions
      ensures rolePermissions == Ensure(old(rolePermissions), role, permission)
    {
      if (role, permission) !in rolePermissions {
        rolePermissions := rolePermissions + [(role, permission)];
      }
    }

    method ReplaceUserRoles(user: int, ids: seq<int>)
      modifies this`userRoles
      ensures userRoles == Reassign(old(userRoles), user, ids)
    {
      hide Unique;
      var toRemove := Select(RowsOf(userRoles, user), (r: (int, int)) => r.1 !in ids);
      DeletedRows(userRoles, user, ids, toRemove);
      userRoles := Select(userRoles, (r: (int, int)) => r !in toRemove);
      ghost var kept := userRoles;
      hide Select, Ensure;
      var i := 0;
      while i < |ids|
        invariant 0 <= i <= |ids|
        invariant userRoles == EnsureAll(kept, user, ids[..i])
      {
        EnsureAllStep(kept, user, ids, i);
        EnsureUserRole(user, ids[i]);
        i := i + 1;
      }
      assert ids[..i] == ids;
    }

    method ReplaceRolePermissions(role: int, ids: seq<int>)
      modifies this`rolePermissions
      ensures rolePermissions == Reassign(old(rolePermissions), role, ids)
    {
      hide Unique;
      var toRemove := Select(RowsOf(rolePermissions, role), (r: (int, int)) => r.1 !in ids);
      DeletedRows(rolePermissions, role, ids, toRemove);
      rolePermissions := Select(rolePermissions, (r: (int, int)) => r !in toRemove);
      ghost var kept := rolePermissions;
      hide Select, Ensure;
      var i := 0;
      while i < |ids|
        invariant 0 <= i <= |ids|
        invariant rolePermissions == EnsureAll(kept, role, ids[..i])
      {
        EnsureAllStep(kept, role, ids, i);
        EnsureRolePermission(role, ids[i]);
        i := i + 1;
      }
      assert ids[..i] == ids;
    }

    method AssignRolesToUser(user: int, codes: Option<seq<Option<string>>>) returns (r: Result<Authorization, Error>)
      modifies this`userRoles
      ensures Perform(old(Db()), AssigningRoles(user, codes)) == if r.Ok? then Ok(Db()) else Err(r.error)
      ensures Db() == After(old(Db()), AssigningRoles(user, codes))
      ensures r.Ok? ==>
        && r.value.user == user && r.value.roles == RoleCodes(Db(), user)
        && r.value.permissions == PermissionCodes(Db(), user)
    {
      hide NormalizeCodes, FindAllOrThrow, Reassign, RoleCodes, PermissionCodes;
      if user !in users {
        return Err(NoSuchUser);
      }
      var normalized := NormalizeCodes(codes);
      if normalized.Err? {
        return Err(normalized.error);
      }
      var ids := FindAllOrThrow(roles, normalized.value);
      if ids.Err? {
        return Err(ids.error);
      }
      ReplaceUserRoles(user, ids.value);
      r := Ok(AuthorizationOf(Db(), user));
    }

    method RevokeRoleFromUser(user: int, code: Option<string>) returns (r: Result<Authorization, Error>)
      modifies this`userRoles
      ensures Perform(old(Db()), RevokingRole(user, code)) == if r.Ok? then Ok(Db()) else Err(r.error)
      ensures Db() == After(old(Db()), RevokingRole(user, code))
      ensures r.Ok? ==>
        && r.value.user == user && r.value.roles == RoleCodes(Db(), user)
        && r.value.permissions == PermissionCodes(Db(), user)
    {
      hide NormalizeCode, FindByCode, Select, RoleCodes, PermissionCodes;
      if user !in users {
        return Err(NoSuchUser);
      }
      var normalized := NormalizeCode(code);
      if normalized.Err? {
        return Err(normalized.error);
      }
      var id := GetOrThrow(roles, normalized.value);
      if id.Err? {
        return Err(id.error);
      }
      if (user, id.value) !in userRoles {
        return Err(NotBound);
      }
      userRoles := Select(userRoles, (p: (int, int)) => p != (user, id.value));
      r := Ok(AuthorizationOf(Db(), user));
    }

    /** The view of the role with this code, with its permissions as they are now. */
    ghost predicate IsView(view: RoleView, code: string)
      reads this
    {
      var id := FindByCode(roles, code);
      id.Some? && view.role == roles.rows[id.value] && view.permissions == RolePermissionCodes(Db(), id.value)
    }

    method AssignPermissionsToRole(role: Option<string>, codes: Option<seq<Option<string>>>) returns (r: Result<RoleView, Error>)
      modifies this`rolePermissions
      ensures Perform(old(Db()), AssigningPermissions(role, codes)) == if r.Ok? then Ok(Db()) else Err(r.error)
      ensures Db() == After(old(Db()), AssigningPermissions(role, codes))
      ensures r.Ok? ==> role.Some? && IsView(r.value, Trim(role.value))
    {
      CodeIsAccepted(role);
      hide Trim, NormalizeCode, NormalizeCodes, FindAllOrThrow, FindByCode, Reassign, RolePermissionCodes;
      var roleCode := NormalizeCode(role);
      if roleCode.Err? {
        return Err(roleCode.error);
      }
      var normalized := NormalizeCodes(codes);
      if normalized.Err? {
        return Err(normalized.error);
      }
      var id := GetOrThrow(roles, roleCode.value);
      if id.Err? {
        return Err(id.error);
      }
      var ids := FindAllOrThrow(permissions, normalized.value);
      if ids.Err? {
        return Err(ids.error);
      }
      ReplaceRolePermissions(id.value, ids.value);
      r := Ok(BuildRoleView(Db(), id.value, RolePermissionCodes(Db(), id.value)));
    }

    method RevokePermissionFromRole(role: Option<string>, code: Option<string>) returns (r: Result<RoleView, Error>)
      modifies this`rolePermissions
      ensures Perform(old(Db()), RevokingPermission(role, code)) == if r.Ok? then Ok(Db()) else Err(r.error)
      ensures Db() == After(old(Db()), RevokingPermission(role, code))
      ensures r.Ok? ==> role.Some? && IsView(r.value, Trim(role.value))
    {
      CodeIsAccepted(role);
      hide NormalizeCode, FindByCode, Select, RolePermissionCodes, Trim;
      var roleCode := NormalizeCode(role);
      if roleCode.Err? {
        return Err(roleCode.error);
      }
      var id := GetOrThrow(roles, roleCode.value);
      if id.Err? {
        return Err(id.error);
      }
      var normalized := NormalizeCode(code);
      if normalized.Err? {
        return Err(normalized.error);
      }
      var permission := GetOrThrow(permissions, normalized.value);
      if permission.Err? {
        return Err(permission.error);
      }
      if (id.value, permission.value) !in rolePermissions {
        return Err(NotBound);
      }
      rolePermissions := Select(rolePermissions, (p: (int, int)) => p != (id.value, permission.value));
      r := Ok(BuildRoleView(Db(), id.value, RolePermissionCodes(Db(), id.value)));
    }

    method CreateNewRole(code: Option<string>, name: Option<string>, description: Option<string>) returns (r: Result<RoleView, Error>)
      modifies this`roles
      ensures Perform(old(Db()), CreatingRole(code, name, description)) == if r.Ok? then Ok(Db()) else Err(r.error)
      ensures Db() == After(old(Db()), CreatingRole(code, name, description))
      ensures r.Ok? ==> r.value == RoleView(roles.rows[old(roles).next], RolePermissionCodes(Db(), old(roles).next))
    {
      hide NormalizeCode, FindByCode, NormalizeNullableText, RolePermissionCodes;
      var normalizedCode := NormalizeCode(code);
      if normalizedCode.Err? {
        return Err(normalizedCode.error);
      }
      var normalizedName := NormalizeCode(name);
      if normalizedName.Err? {
        return Err(normalizedName.error);
      }
      var taken := FindByCode(roles, normalizedCode.value);
      if taken.Some? {
        return Err(CodeTaken);
      }
      var id := roles.next;
      var entry := Entry(normalizedCode.value, normalizedName.value, NormalizeNullableText(description), false);
      roles := Insert(roles, entry);
      r := Ok(BuildRoleView(Db(), id, []));
    }

    method CreateNewPermission(code: Option<string>, name: Option<string>, description: Option<string>) returns (r: Result<Entry, Error>)
      modifies this`permissions
      ensures Perform(old(Db()), CreatingPermission(code, name, description)) == if r.Ok? then Ok(Db()) else Err(r.error)
      ensures Db() == After(old(Db()), CreatingPermission(code, name, description))
      ensures r.Ok? ==> r.value == permissions.rows[old(permissions).next]
    {
      hide NormalizeCode, FindByCode, NormalizeNullableText;
      var normalizedCode := NormalizeCode(code);
      if normalizedCode.Err? {
        return Err(normalizedCode.error);
      }
      var normalizedName := NormalizeCode(name);
      if normalizedName.Err? {
        return Err(normalizedName.error);
      }
      var taken := FindByCode(permissions, normalizedCode.value);
      if taken.Some? {
        return Err(CodeTaken);
      }
      var id := permissions.next;
      var entry := Entry(normalizedCode.value, normalizedName.value, NormalizeNullableText(description), false);
      permissions := Insert(permissions, entry);
      r := Ok(entry);
    }

    method DeleteRoleByCode(code: Option<string>) returns (r: Result<(), Error>)
      modifies this`roles, this`rolePermissions
      ensures Perform(old(Db()), DeletingRole(code)) == if r.Ok? then Ok(Db()) else Err(r.error)
      ensures Db() == After(old(Db()), DeletingRole(code))
    {
      hide NormalizeCode, FindByCode, Select, Mentions;
      var normalized := NormalizeCode(code);
      if normalized.Err? {
        return Err(normalized.error);
      }
      var id := GetOrThrow(roles, normalized.value);
      if id.Err? {
        return Err(id.error);
      }
      if roles.rows[id.value].builtin {
        return Err(IsBuiltin);
      }
      if Mentions(userRoles, id.value) {
        return Err(StillBound);
      }
      rolePermissions := Select(rolePermissions, (p: (int, int)) => p.0 != id.value);
      roles := Registry(roles.rows - {id.value}, roles.next);
      r := Ok(());
    }

    method DeletePermissionByCode(code: Option<string>) returns (r: Result<(), Error>)
      modifies this`permissions
      ensures Perform(old(Db()), DeletingPermission(code)) == if r.Ok? then Ok(Db()) else Err(r.error)
      ensures Db() == After(old(Db()), DeletingPermission(code))
    {
      hide NormalizeCode, FindByCode, Mentions;
      var normalized := NormalizeCode(code);
      if normalized.Err? {
        return Err(normalized.error);
      }
      var id := GetOrThrow(permissions, normalized.value);
      if id.Err? {
        return Err(id.error);
      }
      if permissions.rows[id.value].builtin {
        return Err(IsBuiltin);
      }
      if Mentions(rolePermissions, id.value) {
        return Err(StillBound);
      }
      permissions := Registry(permissions.rows - {id.value}, permissions.next);
      r := Ok(());
    }

    /** A new account and its default roles, in the registration's transaction. */
    method SignUpUser(cid: int) returns (r: Result<(), Error>)
      modifies this`users, this`userRoles
      ensures Perform(old(Db()), SigningUp(cid)) == if r.Ok? then Ok(Db()) else Err(r.error)
      ensures Db() == After(old(Db()), SigningUp(cid))
    {
      hide FindByCode, Mentions, Ensure;
      if cid in users {
        return Err(UserExists);
      }
      var before, rowsBefore := users, userRoles;
      users := AddUser(users, cid);
      var userRole := GetOrThrow(roles, ROLE_USER);
      if userRole.Err? {
        users := before;
        return Err(userRole.error);
      }
      EnsureUserRole(cid, userRole.value);
      var superAdmin := GetOrThrow(roles, ROLE_SUPER_ADMIN);
      if superAdmin.Err? {
        users, userRoles := before, rowsBefore;
        return Err(superAdmin.error);
      }
      if !Mentions(userRoles, superAdmin.value) && |users| == 1 {
        EnsureUserRole(cid, superAdmin.value);
      }
      r := Ok(());
    }

    method EnsureRole(e: Entry) returns (id: int)
      requires e.builtin && RegistrySound(roles)
      modifies this`roles
      ensures roles == EnsureEntry(old(roles), e) && RegistrySound(roles) && BuiltinsKept(old(roles), roles)
      ensures HasBuiltin(roles, e.code) && id == IdOf(roles, e.code)
    {
      EnsuredEntry(roles, e);
      EnsuredIsBuiltin(roles, e);
      hide FindByCode, RegistrySound, BuiltinsKept;
      var found := FindByCode(roles, e.code);
      if found.Some? {
        if !roles.rows[found.value].builtin {
          roles := Registry(roles.rows[found.value := roles.rows[found.value].(builtin := true)], roles.next);
        }
      } else {
        roles := Insert(roles, e);
      }
      id := IdOf(roles, e.code);
    }

    method EnsurePermission(e: Entry) returns (id: int)
      requires e.builtin && RegistrySound(permissions)
      modifies this`permissions
      ensures permissions == EnsureEntry(old(permissions), e)
      ensures RegistrySound(permissions) && BuiltinsKept(old(permissions), permissions)
      ensures HasBuiltin(permissions, e.code) && id == IdOf(permissions, e.code)
    {
      EnsuredEntry(permissions, e);
      EnsuredIsBuiltin(permissions, e);
      hide FindByCode, RegistrySound, BuiltinsKept;
      var found := FindByCode(permissions, e.code);
      if found.Some? {
        if !permissions.rows[found.value].builtin {
          permissions := Registry(permissions.rows[found.value := permissions.rows[found.value].(builtin := true)], permissions.next);
        }
      } else {
        permissions := Insert(permissions, e);
      }
      id := IdOf(permissions, e.code);
    }

    /** The built-in permissions, one after the other, and the ids they are found under at the end. */
    method EnsurePermissions(entries: seq<Entry>) returns (ids: seq<int>)
      requires RegistrySound(permissions) && forall e :: e in entries ==> e.builtin
      modifies this`permissions
      ensures permissions == EnsureEntries(old(permissions), entries)
      ensures ids == IdsOf(permissions, entries)
    {
      hide EnsureEntry, RegistrySound, BuiltinsKept, HasBuiltin, IdOf;
      ids := [];
      var i := 0;
      while i < |entries|
        invariant 0 <= i <= |entries| && |ids| == i
        invariant permissions == EnsureEntries(old(permissions), entries[..i]) && RegistrySound(permissions)
        invariant forall k :: 0 <= k < i ==> HasBuiltin(permissions, entries[k].code) && ids[k] == IdOf(permissions, entries[k].code)
      {
        EnsureEntriesStep(old(permissions), entries, i);
        ghost var before := permissions;
        var id := EnsurePermission(entries[i]);
        forall k | 0 <= k < i ensures HasBuiltin(permissions, entries[k].code) && ids[k] == IdOf(permissions, entries[k].code) {
          SameId(before, permissions, entries[k].code);
        }
        ids := ids + [id];
        i := i + 1;
      }
      assert entries[..i] == entries;
    }

    method BindAllUsers(role: int)
      modifies this`userRoles
      ensures userRoles == EnsureUsers(old(userRoles), users, role)
    {
      hide Ensure;
      var i := 0;
      while i < |users|
        invariant 0 <= i <= |users|
        invariant userRoles == EnsureUsers(old(userRoles), users[..i], role)
      {
        EnsureUsersStep(old(userRoles), users, role, i);
        EnsureUserRole(users[i], role);
        i := i + 1;
      }
      assert users[..i] == users;
    }

    /** RbacBootstrapRunner.run, on tables whose codes are unique. */
    method RunBootstrap()
      requires RegistrySound(roles) && RegistrySound(permissions)
      modifies this`roles, this`permissions, this`userRoles, this`rolePermissions
      ensures Db() == Bootstrap(old(Db()))
    {
      BuiltinEntries();
      hide EnsureEntries, EnsureUsers, EnsureAll, Ensure, Mentions, RegistrySound, HasBuiltin, IdOf, IdsOf;
      hide BUILTIN_PERMISSIONS, BUILTIN_ROLES;
      var userRole, superAdmin := EnsureBuiltinRoles();
      var ids := EnsurePermissions(BUILTIN_PERMISSIONS);
      FirstIsProfile(permissions);
      BindBuiltins(userRole, superAdmin, ids);
    }

    method BindBuiltins(userRole: int, superAdmin: int, ids: seq<int>)
      requires ids != []
      modifies this`userRoles, this`rolePermissions
      ensures rolePermissions == EnsureAll(Ensure(old(rolePermissions), userRole, ids[0]), superAdmin, ids)
      ensures userRoles == EnsureSuperAdmin(EnsureUsers(old(userRoles), users, userRole), users, superAdmin)
    {
      hide EnsureUsers, EnsureAll, Ensure, Mentions;
      EnsureRolePermission(userRole, ids[0]);
      EnsureRolePermissions(superAdmin, ids);
      BindAllUsers(userRole);
      if !Mentions(userRoles, superAdmin) && users != [] {
        EnsureUserRole(users[0], superAdmin);
      }
    }

    method EnsureBuiltinRoles() returns (userRole: int, superAdmin: int)
      requires RegistrySound(roles)
      modifies this`roles
      ensures roles == EnsureEntries(old(roles), BUILTIN_ROLES)
      ensures userRole == IdOf(roles, ROLE_USER) && superAdmin == IdOf(roles, ROLE_SUPER_ADMIN)
    {
      var entries := BUILTIN_ROLES;
      assert entries[..0] == [] && entries[..2] == entries;
      EnsureEntriesStep(roles, entries, 0);
      EnsureEntriesStep(roles, entries, 1);
      hide EnsureEntry, RegistrySound, BuiltinsKept, HasBuiltin, IdOf;
      assert EnsureEntries(roles, []) == roles;
      hide EnsureEntries;
      userRole := EnsureRole(entries[0]);
      ghost var between := roles;
      superAdmin := EnsureRole(entries[1]);
      SameId(between, roles, ROLE_USER);
    }

    method EnsureRolePermissions(role: int, ids: seq<int>)
      modifies this`rolePermissions
      ensures rolePermissions == EnsureAll(old(rolePermissions), role, ids)
    {
      hide Ensure;
      var i := 0;
      while i < |ids|
        invariant 0 <= i <= |ids|
        invariant rolePermissions == EnsureAll(old(rolePermissions), role, ids[..i])
      {
        EnsureAllStep(old(rolePermissions), role, ids, i);
        EnsureRolePermission(role, ids[i]);
        i := i + 1;
      }
      assert ids[..i] == ids;
    }
  }

  lemma SameId(reg: Registry, reg': Registry, code: string)
    requires RegistrySound(reg') && BuiltinsKept(reg, reg') && HasBuiltin(reg, code)
    ensures HasBuiltin(reg', code) && IdOf(reg', code) == IdOf(reg, code)
  {
    BuiltinStays(reg, reg', code);
    hide FindByCode, RegistrySound, BuiltinsKept;
  }

  lemma FirstIsProfile(reg: Registry)
    ensures |IdsOf(reg, BUILTIN_PERMISSIONS)| > 0 && IdsOf(reg, BUILTIN_PERMISSIONS)[0] == IdOf(reg, PROFILE_READ)
  {
    assert BUILTIN_PERMISSIONS[0].code == PROFILE_READ;
    hide IdOf;
  }
}
