/**
 * Role-based access control on the user model: the set of permission codes a
 * user holds (cached on the user object after the first computation), the
 * single-code check, and the charset rule for permission codes.
 */
module Rbac {
  import opened Wrappers
  import opened Text

  datatype Permission = Permission(code: string, isActive: bool)

  /** A role with the permissions attached to it. */
  datatype Role = Role(roleName: string, isActive: bool, permissions: seq<Permission>)

  // ---------------------------------------------------------------------------
  // Permission codes
  // ---------------------------------------------------------------------------

  const CodeMessage := "Code must only contain letters, numbers, dots, underscores, or hyphens."

  /** `c.isalnum() or c in "._-"` */
  predicate SafeChar(c: char) {
    IsAlnum(c) || c == '.' || c == '_' || c == '-'
  }

  /** `Permission.clean()`: the code is refused iff some character is neither alphanumeric nor one of `._-`. */
  function CleanPermission(code: string): (r: Outcome<string>)
    ensures r.Pass? <==> forall i :: 0 <= i < |code| ==> SafeChar(code[i])
    ensures r.Fail? ==> r.error == CodeMessage
  {
    if code == [] then Pass
    else if !SafeChar(code[0]) then Fail(CodeMessage)
    else
      var rest := CleanPermission(code[1..]);
      assert forall i :: 1 <= i < |code| ==> code[i] == code[1..][i - 1];
      rest
  }

  /** A code that passes stays safe when cut into pieces at dots, the shape `ticket.create` names. */
  lemma SafeCodesConcatenate(a: string, b: string)
    requires CleanPermission(a).Pass? && CleanPermission(b).Pass?
    ensures CleanPermission(a + "." + b).Pass?
  {
    var s := a + "." + b;
    forall i | 0 <= i < |s| ensures SafeChar(s[i]) {
      if i < |a| {
        assert s[i] == a[i];
      } else if i > |a| {
        assert s[i] == b[i - |a| - 1];
      }
    }
  }

  // ---------------------------------------------------------------------------
  // The permission set
  // ---------------------------------------------------------------------------

  /** `set(Permission.objects.filter(is_active=True).values_list("code", flat=True))` */
  function ActiveCodes(all: seq<Permission>): set<string> {
    set p | p in all && p.isActive :: p.code
  }

  /** The codes of the active permissions in `perms`, accumulated one permission at a time. */
  function ActivePermissionCodes(perms: seq<Permission>): set<string> {
    if perms == [] then {}
    else
      var last := perms[|perms| - 1];
      ActivePermissionCodes(perms[..|perms| - 1]) + (if last.isActive then {last.code} else {})
  }

  /** What the nested loops over active roles and their active permissions collect. */
  function RoleCodes(roles: seq<Role>): set<string> {
    if roles == [] then {}
    else
      var last := roles[|roles| - 1];
      RoleCodes(roles[..|roles| - 1]) + (if last.isActive then ActivePermissionCodes(last.permissions) else {})
  }

  /** What `get_all_permissions()` computes when nothing is cached. */
  function PermissionCodes(isSuperuser: bool, roles: seq<Role>, all: seq<Permission>): set<string> {
    if isSuperuser then ActiveCodes(all) else RoleCodes(roles)
  }

  lemma {:induction false} ActivePermissionCodesMembership(perms: seq<Permission>, c: string)
    ensures c in ActivePermissionCodes(perms) <==> exists p :: p in perms && p.isActive && p.code == c
  {
    if perms != [] {
      var init, last := perms[..|perms| - 1], perms[|perms| - 1];
      ActivePermissionCodesMembership(init, c);
      assert perms == init + [last];
      if exists p :: p in perms && p.isActive && p.code == c {
        var p :| p in perms && p.isActive && p.code == c;
        if p != last {
          assert p in init;
        }
      }
    }
  }

  /**
   * A non-superuser holds a code exactly when some active role of theirs has an
   * active permission with that code; inactive roles and inactive permissions
   * contribute nothing.
   */
  lemma {:induction false} RoleCodesMembership(roles: seq<Role>, c: string)
    ensures c in RoleCodes(roles) <==>
            exists r, p :: r in roles && r.isActive && p in r.permissions && p.isActive && p.code == c
  {
    if roles != [] {
      var init, last := roles[..|roles| - 1], roles[|roles| - 1];
      RoleCodesMembership(init, c);
      ActivePermissionCodesMembership(last.permissions, c);
      assert roles == init + [last];
      if exists r, p :: r in roles && r.isActive && p in r.permissions && p.isActive && p.code == c {
        var r, p :| r in roles && r.isActive && p in r.permissions && p.isActive && p.code == c;
        if r != last {
          assert r in init;
        }
      }
    }
  }

  /** Deactivating a role can only remove codes, never add them. */
  lemma DeactivatingRoleShrinks(roles: seq<Role>, i: int)
    requires 0 <= i < |roles|
    ensures RoleCodes(roles[i := roles[i].(isActive := false)]) <= RoleCodes(roles)
  {
    var after := roles[i := roles[i].(isActive := false)];
    forall c | c in RoleCodes(after) ensures c in RoleCodes(roles) {
      RoleCodesMembership(after, c);
      RoleCodesMembership(roles, c);
      var r, p :| r in after && r.isActive && p in r.permissions && p.isActive && p.code == c;
      assert r in roles;
    }
  }

  /** The user model with the RBAC mixin. */
  class RbacUser {
    const isActive: bool
    const isSuperuser: bool
    var roles: seq<Role>
    /** `_permission_cache`, absent until first computed. */
    var permissionCache: Option<set<string>>

    constructor (isActive: bool, isSuperuser: bool, roles: seq<Role>)
      ensures this.isActive == isActive && this.isSuperuser == isSuperuser && this.roles == roles
      ensures permissionCache == None
    {
      this.isActive := isActive;
      this.isSuperuser := isSuperuser;
      this.roles := roles;
      permissionCache := None;
    }

    /**
     * `get_all_permissions()` against the permission table `all`: the cached
     * set when there is one, even if roles changed since; otherwise the codes
     * are computed and cached.
     */
    method GetAllPermissions(all: seq<Permission>) returns (codes: set<string>)
      modifies `permissionCache
      ensures old(permissionCache).Some? ==> codes == old(permissionCache).value && permissionCache == old(permissionCache)
      ensures old(permissionCache).None? ==> codes == PermissionCodes(isSuperuser, roles, all) && permissionCache == Some(codes)
    {
      if permissionCache.Some? {
        return permissionCache.value;
      }
      if isSuperuser {
        codes := set p | p in all && p.isActive :: p.code;
      } else {
        codes := {};
        for i := 0 to |roles|
          invariant codes == RoleCodes(roles[..i])
        {
          assert roles[..i + 1][..i] == roles[..i];
          var role := roles[i];
          if role.isActive {
            var roleCodes: set<string> := {};
            for j := 0 to |role.permissions|
              invariant roleCodes == ActivePermissionCodes(role.permissions[..j])
            {
              assert role.permissions[..j + 1][..j] == role.permissions[..j];
              var perm := role.permissions[j];
              if perm.isActive {
                roleCodes := roleCodes + {perm.code};
              }
            }
            assert role.permissions[..|role.permissions|] == role.permissions;
            codes := codes + roleCodes;
          }
        }
        assert roles[..|roles|] == roles;
      }
      permissionCache := Some(codes);
    }

    /** `has_role_permission(code)`: false for an inactive user, who never fills the cache; otherwise membership. */
    method HasRolePermission(code: string, all: seq<Permission>) returns (b: bool)
      modifies `permissionCache
      ensures !isActive ==> !b && permissionCache == old(permissionCache)
      ensures isActive && old(permissionCache).Some? ==> (b <==> code in old(permissionCache).value)
      ensures isActive && old(permissionCache).None? ==> (b <==> code in PermissionCodes(isSuperuser, roles, all))
      ensures isActive ==> permissionCache.Some? && (b <==> code in permissionCache.value)
      ensures old(permissionCache).Some? ==> permissionCache == old(permissionCache)
    {
      if !isActive {
        return false;
      }
      var codes := GetAllPermissions(all);
      b := code in codes;
    }
  }
}
