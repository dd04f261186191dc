/**
 * The two `HasPermissionCode` request checks. `perms` stands for what
 * `user.get_all_permissions()` answers for the requesting user, so that
 * `user.has_role_permission(c)` of an active user is `c in perms`.
 */
module Permissions {
  import opened Wrappers
  import opened Text

  /** The request's user; None when there is none at all. */
  datatype User = User(isAuthenticated: bool, isActive: bool, isSuperuser: bool)

  /** The permission attributes a view may declare; an undeclared one is None. */
  datatype View = View(permissionCode: Option<string>, permissionCodes: Option<seq<string>>,
                       permissionMap: Option<map<string, string>>)

  // ---------------------------------------------------------------------------
  // The advanced check (Project/roles)
  // ---------------------------------------------------------------------------

  /** Why a request is refused; each raises `PermissionDenied`. */
  datatype Denial =
    | AuthenticationRequired
    | MissingCode(code: string)
    | MissingAnyOf(codes: set<string>)
    | NotConfigured

  datatype Decision = Allow | Deny(reason: Denial)

  function DenialMessage(d: Denial): string {
    match d
    case AuthenticationRequired => "Authentication required."
    case MissingCode(c) => "You do not have required permission: " + c
    case MissingAnyOf(_) => "Missing one of required permissions: "
    case NotConfigured => "RBAC permission_code not configured for this endpoint."
  }

  /** `_normalize_code(code)` */
  function NormalizeCode(code: string): string {
    Lower(Strip(code))
  }

  /** Normalising twice is normalising once. */
  lemma NormalizeIdempotent(code: string)
    ensures NormalizeCode(NormalizeCode(code)) == NormalizeCode(code)
  {
    LowerStrip(Strip(code));
    StripIdempotent(code);
    LowerIdempotent(Strip(code));
  }

  /** The single code in force: a truthy `permission_map` entry for the method, else a truthy `permission_code`. */
  function ResolvedCode(view: View, httpMethod: string): (r: Option<string>)
    ensures r.Some? ==> r.value != ""
    ensures r.None? <==> !Given(view.permissionCode)
                         && (view.permissionMap.None? || !Given(Lookup(view.permissionMap.value, httpMethod)))
  {
    var fromMap :=
      if view.permissionMap.Some? && view.permissionMap.value != map[] then Lookup(view.permissionMap.value, httpMethod) else None;
    if Given(fromMap) then fromMap
    else if Given(view.permissionCode) then view.permissionCode
    else None
  }

  /** `set(self._normalize_code(c) for c in codes)` */
  function NormalizedSet(codes: seq<string>): set<string> {
    set c | c in codes :: NormalizeCode(c)
  }

  /** `HasPermissionCode.has_permission(request, view)` of Project/roles. */
  function HasPermissionAdvanced(user: Option<User>, perms: set<string>, view: View, httpMethod: string): (r: Decision)
    ensures (user.None? || !user.value.isAuthenticated || !user.value.isActive) ==> r == Deny(AuthenticationRequired)
  {
    if user.None? || !user.value.isAuthenticated || !user.value.isActive then Deny(AuthenticationRequired)
    else if user.value.isSuperuser then Allow
    else
      match ResolvedCode(view, httpMethod)
      case Some(code) =>
        var c := NormalizeCode(code);
        if c in perms then Allow else Deny(MissingCode(c))
      case None =>
        if view.permissionCodes.Some? && view.permissionCodes.value != [] then
          var normalized := NormalizedSet(view.permissionCodes.value);
          if normalized * perms != {} then Allow else Deny(MissingAnyOf(normalized))
        else Deny(NotConfigured)
  }

  /** A missing, unauthenticated or inactive user is refused before anything else; a superuser is let through before any code is read. */
  lemma AdvancedGuards(user: Option<User>, perms: set<string>, view: View, httpMethod: string)
    ensures (user.None? || !user.value.isAuthenticated || !user.value.isActive) ==>
              HasPermissionAdvanced(user, perms, view, httpMethod) == Deny(AuthenticationRequired)
    ensures user.Some? && user.value.isAuthenticated && user.value.isActive && user.value.isSuperuser ==>
              HasPermissionAdvanced(user, perms, view, httpMethod) == Allow
  {
  }

  /**
   * The decision for an ordinary active user: with a code in force, allowed iff
   * its normalised form is held; otherwise, with codes listed, allowed iff any
   * normalised one is held; with nothing configured, refused.
   */
  lemma AdvancedDecision(u: User, perms: set<string>, view: View, httpMethod: string)
    requires u.isAuthenticated && u.isActive && !u.isSuperuser
    ensures var d := HasPermissionAdvanced(Some(u), perms, view, httpMethod);
            && (ResolvedCode(view, httpMethod).Some? ==>
                  (d == Allow <==> NormalizeCode(ResolvedCode(view, httpMethod).value) in perms))
            && (ResolvedCode(view, httpMethod).None? && view.permissionCodes.Some? && view.permissionCodes.value != [] ==>
                  (d == Allow <==> exists c :: c in view.permissionCodes.value && NormalizeCode(c) in perms))
            && (ResolvedCode(view, httpMethod).None? && (view.permissionCodes.None? || view.permissionCodes.value == []) ==>
                  d == Deny(NotConfigured))
  {
    if ResolvedCode(view, httpMethod).None? && view.permissionCodes.Some? && view.permissionCodes.value != [] {
      var codes := view.permissionCodes.value;
      var normalized := NormalizedSet(codes);
      if exists c :: c in codes && NormalizeCode(c) in perms {
        var c :| c in codes && NormalizeCode(c) in perms;
        assert NormalizeCode(c) in normalized * perms;
      }
      if normalized * perms != {} {
        var x :| x in normalized * perms;
        var c :| c in codes && NormalizeCode(c) == x;
        assert c in codes && NormalizeCode(c) in perms;
      }
    }
  }

  /** A truthy map entry for the method overrides whatever `permission_code` and `permission_codes` say. */
  lemma MapEntryOverrides(user: Option<User>, perms: set<string>, view: View, httpMethod: string,
                          code: Option<string>, codes: Option<seq<string>>)
    requires view.permissionMap.Some? && Given(Lookup(view.permissionMap.value, httpMethod))
    ensures HasPermissionAdvanced(user, perms, view, httpMethod)
            == HasPermissionAdvanced(user, perms, view.(permissionCode := code, permissionCodes := codes), httpMethod)
  {
  }

  /** A method without a map entry falls back to `permission_code`, as if there were no map. */
  lemma NoMapEntryFallsBack(user: Option<User>, perms: set<string>, view: View, httpMethod: string)
    requires view.permissionMap.Some? && !Given(Lookup(view.permissionMap.value, httpMethod))
    ensures HasPermissionAdvanced(user, perms, view, httpMethod)
            == HasPermissionAdvanced(user, perms, view.(permissionMap := None), httpMethod)
  {
  }

  /** `permission_codes` is read only when no single code is in force. */
  lemma CodesIgnoredUnderCode(user: Option<User>, perms: set<string>, view: View, httpMethod: string, codes: Option<seq<string>>)
    requires ResolvedCode(view, httpMethod).Some?
    ensures HasPermissionAdvanced(user, perms, view, httpMethod)
            == HasPermissionAdvanced(user, perms, view.(permissionCodes := codes), httpMethod)
  {
  }

  /** Normalisation makes the check blind to case and surrounding whitespace in the configured code. */
  lemma CodeCaseAndSpaceIgnored(user: Option<User>, perms: set<string>, code: string, other: string, httpMethod: string)
    requires code != "" && other != "" && NormalizeCode(code) == NormalizeCode(other)
    ensures HasPermissionAdvanced(user, perms, View(Some(code), None, None), httpMethod)
            == HasPermissionAdvanced(user, perms, View(Some(other), None, None), httpMethod)
  {
    assert ResolvedCode(View(Some(code), None, None), httpMethod) == Some(code);
    assert ResolvedCode(View(Some(other), None, None), httpMethod) == Some(other);
  }

  // ---------------------------------------------------------------------------
  // The plain check (roles)
  // ---------------------------------------------------------------------------

  /** `HasPermissionCode.has_permission(request, view)` of roles: only `permission_code` is read, as given. */
  function HasPermissionPlain(user: Option<User>, perms: set<string>, permissionCode: Option<string>): (r: bool)
    ensures r && Given(permissionCode) ==>
              user.Some? && user.value.isAuthenticated && user.value.isActive
              && (user.value.isSuperuser || permissionCode.value in perms)
  {
    if !Given(permissionCode) then true
    else if user.None? || !user.value.isAuthenticated || !user.value.isActive then false
    else if user.value.isSuperuser then true
    else permissionCode.value in perms
  }

  /**
   * With no code on the view everyone passes, even without a user; with one,
   * a missing, unauthenticated or inactive user fails, a superuser passes, and
   * anyone else passes iff they hold the code.
   */
  lemma PlainDecision(user: Option<User>, perms: set<string>, permissionCode: Option<string>)
    ensures !Given(permissionCode) ==> HasPermissionPlain(user, perms, permissionCode)
    ensures Given(permissionCode) && (user.None? || !user.value.isAuthenticated || !user.value.isActive) ==>
              !HasPermissionPlain(user, perms, permissionCode)
    ensures Given(permissionCode) && user.Some? && user.value.isAuthenticated && user.value.isActive ==>
              (HasPermissionPlain(user, perms, permissionCode) <==> user.value.isSuperuser || permissionCode.value in perms)
  {
  }

  /**
   * The two checks agree for an authenticated active user on a view with a
   * single normalised code and nothing else; they part ways without a user or
   * without a code, where the plain check lets the request through and the
   * advanced one refuses it.
   */
  lemma ChecksCompared(user: Option<User>, perms: set<string>, code: string, httpMethod: string)
    ensures code != "" && NormalizeCode(code) == code && user.Some? && user.value.isAuthenticated && user.value.isActive ==>
              (HasPermissionAdvanced(user, perms, View(Some(code), None, None), httpMethod) == Allow
               <==> HasPermissionPlain(user, perms, Some(code)))
    ensures HasPermissionPlain(None, perms, None)
            && HasPermissionAdvanced(None, perms, View(None, None, None), httpMethod) == Deny(AuthenticationRequired)
    ensures user.Some? && user.value.isAuthenticated && user.value.isActive && !user.value.isSuperuser ==>
              HasPermissionPlain(user, perms, None)
              && HasPermissionAdvanced(user, perms, View(None, None, None), httpMethod) == Deny(NotConfigured)
  {
  }
}
