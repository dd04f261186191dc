/**
 * `RoleWriteSerializer.validate_role_name`: role names are stripped and must
 * be unique ignoring case, the role being edited aside.
 */
module RoleNames {
  import opened Wrappers
  import opened Text
  import opened Queries

  const DuplicateRoleMessage := "Role name already exists."

  /**
   * `validate_role_name(value)` against the role table `rows`; `instance` is
   * the key of the role being updated, None on create.
   */
  function ValidateRoleName(rows: seq<Row>, value: string, instance: Option<nat>): (r: Result<string, string>)
    ensures r.Failure? <==> exists i :: 0 <= i < |rows| && Some(rows[i].id) != instance && IEquals(rows[i].name, Strip(value))
    ensures r.Failure? ==> r.error == DuplicateRoleMessage
    ensures r.Success? ==> r.value == Strip(value)
  {
    var name := Strip(value);
    assert forall i :: 0 <= i < |rows| ==> (ClashesAt(rows, name, instance, i) <==> Some(rows[i].id) != instance && IEquals(rows[i].name, name));
    if IExactExists(rows, name, instance) then Failure(DuplicateRoleMessage) else Success(name)
  }

  /** On update a role may keep its own name, in any case and with any padding, when no other role has it. */
  lemma KeepingOwnNamePasses(rows: seq<Row>, own: nat, value: string)
    requires forall i :: 0 <= i < |rows| && rows[i].id != own ==> !IEquals(rows[i].name, Strip(value))
    ensures ValidateRoleName(rows, value, Some(own)) == Success(Strip(value))
  {
  }

  /**
   * The comparison is on the stripped value and ignores case: a name padded
   * with a space on each side, in any case, collides with an existing role of
   * that name (" Admin " with "admin").
   */
  lemma PaddedCaseVariantCollides(rows: seq<Row>, i: int, instance: Option<nat>, core: string)
    requires 0 <= i < |rows| && Some(rows[i].id) != instance
    requires core != [] && IsStripped(core) && IEquals(rows[i].name, core)
    ensures ValidateRoleName(rows, " " + core + " ", instance).Failure?
  {
    StripSurroundingSpaces(core);
  }

  /** Validating the accepted name again gives the same answer: the result is already stripped. */
  lemma AcceptedNameStable(rows: seq<Row>, value: string, instance: Option<nat>)
    requires ValidateRoleName(rows, value, instance).Success?
    ensures ValidateRoleName(rows, ValidateRoleName(rows, value, instance).value, instance)
            == ValidateRoleName(rows, value, instance)
  {
    StripIdempotent(value);
  }
}
