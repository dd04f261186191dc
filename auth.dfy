/**
 * What the account flows share: stored password hashes and the two user
 * tables the login and reset flows search (the project's `Account` model and
 * whatever `get_user_model()` answers).
 */
module Auth {
  import opened Wrappers
  import opened Text

  /**
   * A stored password. `make_password` is idealised as remembering its input:
   * salting and the one-way function are not modelled. `Unusable` is the empty
   * hash a row has before any password is set.
   */
  datatype PasswordHash = Unusable | Salted(secret: string)

  function MakePassword(raw: string): PasswordHash {
    Salted(raw)
  }

  /** `check_password(raw, encoded)` */
  predicate CheckPassword(raw: string, encoded: PasswordHash) {
    encoded.Salted? && encoded.secret == raw
  }

  /** A hash made from one code accepts that code and no other; the empty hash accepts nothing. */
  lemma CheckPasswordExact(raw: string, other: string)
    ensures CheckPassword(other, MakePassword(raw)) <==> other == raw
    ensures !CheckPassword(other, Unusable)
  {
  }

  /** A row of the project's `Account` table. */
  datatype AccountRow = AccountRow(id: nat, username: string, gmail: string, password: PasswordHash)

  /** A row of the table `get_user_model()` stands for. */
  datatype UserRow = UserRow(id: nat, username: string, email: string, password: PasswordHash)

  /** The user a login resolves to, with the table it came from. */
  datatype Principal = FromAccount(account: AccountRow) | FromUser(user: UserRow)
  {
    function Id(): nat {
      match this
      case FromAccount(a) => a.id
      case FromUser(u) => u.id
    }

    function Password(): PasswordHash {
      match this
      case FromAccount(a) => a.password
      case FromUser(u) => u.password
    }
  }

  /** The column a lookup filters on with `__iexact`. */
  datatype Column = Username | Mail

  function AccountField(a: AccountRow, col: Column): string {
    if col == Username then a.username else a.gmail
  }

  function UserField(u: UserRow, col: Column): string {
    if col == Username then u.username else u.email
  }

  /** The index of the first account from `start` on whose column matches `value`, ignoring case. */
  function FirstAccountFrom(rows: seq<AccountRow>, col: Column, value: string, start: nat): (r: Option<nat>)
    requires start <= |rows|
    ensures r.None? <==> forall i :: start <= i < |rows| ==> !IEquals(AccountField(rows[i], col), value)
    ensures r.Some? ==> start <= r.value < |rows| && IEquals(AccountField(rows[r.value], col), value)
                        && forall j :: start <= j < r.value ==> !IEquals(AccountField(rows[j], col), value)
    decreases |rows| - start
  {
    if start == |rows| then None
    else if IEquals(AccountField(rows[start], col), value) then Some(start)
    else FirstAccountFrom(rows, col, value, start + 1)
  }

  /** `Account.objects.filter(<col>__iexact=value).first()`; `rows` are in the `Account` ordering (`first_name`, `last_name`). */
  function FirstAccount(rows: seq<AccountRow>, col: Column, value: string): (r: Option<AccountRow>)
    ensures r.None? <==> forall i :: 0 <= i < |rows| ==> !IEquals(AccountField(rows[i], col), value)
    ensures r.Some? ==> r.value in rows && IEquals(AccountField(r.value, col), value)
    ensures r.Some? ==> exists i :: 0 <= i < |rows| && rows[i] == r.value && IEquals(AccountField(rows[i], col), value)
                                    && forall j :: 0 <= j < i ==> !IEquals(AccountField(rows[j], col), value)
  {
    match FirstAccountFrom(rows, col, value, 0)
    case None => None
    case Some(i) => Some(rows[i])
  }

  /** The index of the first user from `start` on whose column matches `value`, ignoring case. */
  function FirstUserFrom(rows: seq<UserRow>, col: Column, value: string, start: nat): (r: Option<nat>)
    requires start <= |rows|
    ensures r.None? <==> forall i :: start <= i < |rows| ==> !IEquals(UserField(rows[i], col), value)
    ensures r.Some? ==> start <= r.value < |rows| && IEquals(UserField(rows[r.value], col), value)
                        && forall j :: start <= j < r.value ==> !IEquals(UserField(rows[j], col), value)
    decreases |rows| - start
  {
    if start == |rows| then None
    else if IEquals(UserField(rows[start], col), value) then Some(start)
    else FirstUserFrom(rows, col, value, start + 1)
  }

  /** `User.objects.filter(<col>__iexact=value).first()`; `rows` are in primary-key order. */
  function FirstUser(rows: seq<UserRow>, col: Column, value: string): (r: Option<UserRow>)
    ensures r.None? <==> forall i :: 0 <= i < |rows| ==> !IEquals(UserField(rows[i], col), value)
    ensures r.Some? ==> r.value in rows && IEquals(UserField(r.value, col), value)
    ensures r.Some? ==> exists i :: 0 <= i < |rows| && rows[i] == r.value && IEquals(UserField(rows[i], col), value)
                                    && forall j :: 0 <= j < i ==> !IEquals(UserField(rows[j], col), value)
  {
    match FirstUserFrom(rows, col, value, 0)
    case None => None
    case Some(i) => Some(rows[i])
  }

  /** No account's column matches `value`, ignoring case. */
  predicate NoAccountMatches(rows: seq<AccountRow>, col: Column, value: string) {
    forall i :: 0 <= i < |rows| ==> !IEquals(AccountField(rows[i], col), value)
  }

  /** Row `i` is the first account whose column matches `value`, ignoring case. */
  predicate AccountFirstAt(rows: seq<AccountRow>, col: Column, value: string, i: int) {
    && 0 <= i < |rows| && IEquals(AccountField(rows[i], col), value)
    && forall j :: 0 <= j < i ==> !IEquals(AccountField(rows[j], col), value)
  }

  /** No user's column matches `value`, ignoring case. */
  predicate NoUserMatches(rows: seq<UserRow>, col: Column, value: string) {
    forall i :: 0 <= i < |rows| ==> !IEquals(UserField(rows[i], col), value)
  }

  /** Row `i` is the first user whose column matches `value`, ignoring case. */
  predicate UserFirstAt(rows: seq<UserRow>, col: Column, value: string, i: int) {
    && 0 <= i < |rows| && IEquals(UserField(rows[i], col), value)
    && forall j :: 0 <= j < i ==> !IEquals(UserField(rows[j], col), value)
  }

  /** `.first()` on the accounts answers the first matching row, wherever it is. */
  lemma FirstAccountIsFirstMatch(rows: seq<AccountRow>, col: Column, value: string)
    ensures forall i :: AccountFirstAt(rows, col, value, i) ==> FirstAccount(rows, col, value) == Some(rows[i])
  {
    forall i | AccountFirstAt(rows, col, value, i) ensures FirstAccount(rows, col, value) == Some(rows[i]) {
    }
  }

  /** `.first()` on the users answers the first matching row, wherever it is. */
  lemma FirstUserIsFirstMatch(rows: seq<UserRow>, col: Column, value: string)
    ensures forall i :: UserFirstAt(rows, col, value, i) ==> FirstUser(rows, col, value) == Some(rows[i])
  {
    forall i | UserFirstAt(rows, col, value, i) ensures FirstUser(rows, col, value) == Some(rows[i]) {
    }
  }
}
