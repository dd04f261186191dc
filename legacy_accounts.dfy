/**
 * The older account flows: login with its identifier fallback, the reset
 * password policy and where the reset token is read from, the 4-digit OTP
 * code, and the per-address resend rate limit. The OTP rows these flows
 * store carry the address and the plain code, and accounts a `gmail`
 * column, as the flows assume although the table they import declares
 * neither.
 */
module LegacyAccounts {
  import opened Wrappers
  import opened Text
  import opened Auth
  import opened CacheStore
  import PasswordReset

  const InvalidIdentifierMessage := "Enter valid username/email"
  const ShortPasswordMessage := "Enter the valid password of minimum 8 characters"
  const WrongPasswordMessage := "Enter the valid password"
  const MismatchMessage := "new_password and confirm_password do not match"
  const WeakPasswordMessage := "Password must be 8+ chars, contain an uppercase letter, a number and a special character."
  const MissingTokenMessage := "reset token required (X-Reset-Token header or reset_token in body)"
  const SendFailedMessage := "Failed to send OTP. Please try again later."
  /** The default of `OTP_RATE_LIMIT_SECONDS`. */
  const RateLimitSeconds := 60
  const MultipleRowsMessage := "MultipleObjectsReturned"

  /** `a or b or c or d or ""` over optional strings. */
  function FirstGiven(candidates: seq<Option<string>>): (r: string)
    ensures r == [] <==> forall i :: 0 <= i < |candidates| ==> !Given(candidates[i])
    ensures r != [] ==> exists i :: 0 <= i < |candidates| && candidates[i] == Some(r)
                                    && forall j :: 0 <= j < i ==> !Given(candidates[j])
  {
    if candidates == [] then ""
    else if Given(candidates[0]) then candidates[0].value
    else
      var rest := FirstGiven(candidates[1..]);
      assert forall i :: 1 <= i < |candidates| ==> candidates[i] == candidates[1..][i - 1];
      if rest != [] then
        var k :| 0 <= k < |candidates[1..]| && candidates[1..][k] == Some(rest)
                 && forall j :: 0 <= j < k ==> !Given(candidates[1..][j]);
        assert candidates[k + 1] == Some(rest);
        rest
      else rest
  }

  // ---------------------------------------------------------------------------
  // Login
  // ---------------------------------------------------------------------------

  /** What `objects.get(...)` finds: no row (`DoesNotExist`), one row, or several (`MultipleObjectsReturned`). */
  datatype Lookup<T> = NotFound | Found(row: T) | Multiple

  function AccountsMatching(rows: seq<AccountRow>, col: Column, value: string): (r: seq<AccountRow>)
    ensures forall a :: a in r <==> a in rows && IEquals(AccountField(a, col), value)
  {
    if rows == [] then []
    else
      var last := rows[|rows| - 1];
      AccountsMatching(rows[..|rows| - 1], col, value) + (if IEquals(AccountField(last, col), value) then [last] else [])
  }

  function UsersMatching(rows: seq<UserRow>, col: Column, value: string): (r: seq<UserRow>)
    ensures forall u :: u in r <==> u in rows && IEquals(UserField(u, col), value)
  {
    if rows == [] then []
    else
      var last := rows[|rows| - 1];
      UsersMatching(rows[..|rows| - 1], col, value) + (if IEquals(UserField(last, col), value) then [last] else [])
  }

  function AsLookup<T>(matches: seq<T>): (r: Lookup<T>)
    ensures r == NotFound <==> matches == []
    ensures r.Found? <==> |matches| == 1
    ensures r.Found? ==> r.row == matches[0]
  {
    if |matches| == 0 then NotFound else if |matches| == 1 then Found(matches[0]) else Multiple
  }

  /** The account a login resolves to: by username, then by gmail; None when neither finds a row. */
  function AccountLookup(accounts: seq<AccountRow>, id: string): (r: Result<Option<AccountRow>, string>)
    ensures var byName := AccountsMatching(accounts, Username, id);
            var byMail := AccountsMatching(accounts, Mail, id);
            && (|byName| == 1 ==> r == Success(Some(byName[0])))
            && (|byName| > 1 ==> r == Failure(MultipleRowsMessage))
            && (byName == [] && |byMail| == 1 ==> r == Success(Some(byMail[0])))
            && (byName == [] && |byMail| > 1 ==> r == Failure(MultipleRowsMessage))
            && (r == Success(None) <==> byName == [] && byMail == [])
  {
    match AsLookup(AccountsMatching(accounts, Username, id))
    case Found(a) => Success(Some(a))
    case Multiple => Failure(MultipleRowsMessage)
    case NotFound =>
      match AsLookup(AccountsMatching(accounts, Mail, id))
      case Found(a) => Success(Some(a))
      case Multiple => Failure(MultipleRowsMessage)
      case NotFound => Success(None)
  }

  /** The user a login falls back to: by username, then by email. */
  function UserLookup(users: seq<UserRow>, id: string): (r: Result<Option<UserRow>, string>)
    ensures var byName := UsersMatching(users, Username, id);
            var byMail := UsersMatching(users, Mail, id);
            && (|byName| == 1 ==> r == Success(Some(byName[0])))
            && (|byName| > 1 ==> r == Failure(MultipleRowsMessage))
            && (byName == [] && |byMail| == 1 ==> r == Success(Some(byMail[0])))
            && (byName == [] && |byMail| > 1 ==> r == Failure(MultipleRowsMessage))
            && (r == Success(None) <==> byName == [] && byMail == [])
  {
    match AsLookup(UsersMatching(users, Username, id))
    case Found(u) => Success(Some(u))
    case Multiple => Failure(MultipleRowsMessage)
    case NotFound =>
      match AsLookup(UsersMatching(users, Mail, id))
      case Found(u) => Success(Some(u))
      case Multiple => Failure(MultipleRowsMessage)
      case NotFound => Success(None)
  }

  /** The password check on the row a login found. */
  function PasswordChecked(pw: string, p: Principal): Result<Principal, string> {
    if CheckPassword(pw, p.Password()) then Success(p) else Failure(WrongPasswordMessage)
  }

  /**
   * What `LoginSerializer.validate` does once it has the stripped identifier
   * and the password: it refuses an empty identifier, then a password shorter
   * than 8 characters, before any lookup; it searches the Account table by
   * username then gmail, and the User table by username then email only when
   * no account was found; the password must match.
   */
  function Authenticate(accounts: seq<AccountRow>, users: seq<UserRow>, id: string, pw: string): (r: Result<Principal, string>)
    ensures id == [] ==> r == Failure(InvalidIdentifierMessage)
    ensures id != [] && |pw| < 8 ==> r == Failure(ShortPasswordMessage)
    ensures r.Success? ==> |pw| >= 8 && CheckPassword(pw, r.value.Password())
    ensures r.Success? && r.value.FromAccount? ==>
              r.value.account in accounts
              && (IEquals(r.value.account.username, id) || IEquals(r.value.account.gmail, id))
    ensures r.Success? && r.value.FromUser? ==>
              AccountLookup(accounts, id) == Success(None) && r.value.user in users
              && (IEquals(r.value.user.username, id) || IEquals(r.value.user.email, id))
  {
    if id == [] then Failure(InvalidIdentifierMessage)
    else if |pw| < 8 then Failure(ShortPasswordMessage)
    else
      match AccountLookup(accounts, id)
      case Failure(e) => Failure(e)
      case Success(Some(a)) =>
        assert a in AccountsMatching(accounts, Username, id) || a in AccountsMatching(accounts, Mail, id);
        if !CheckPassword(pw, a.password) then Failure(WrongPasswordMessage) else Success(FromAccount(a))
      case Success(None) =>
        match UserLookup(users, id)
        case Failure(e) => Failure(e)
        case Success(Some(u)) =>
          assert u in UsersMatching(users, Username, id) || u in UsersMatching(users, Mail, id);
          if !CheckPassword(pw, u.password) then Failure(WrongPasswordMessage) else Success(FromUser(u))
        case Success(None) => Failure(InvalidIdentifierMessage)
  }

  /**
   * The Account table decides first: a single row by username, else a single
   * row by gmail, logs in when the password checks; several rows in the column
   * searched raise.
   */
  lemma AccountsDecideLogin(accounts: seq<AccountRow>, users: seq<UserRow>, id: string, pw: string)
    ensures var r := Authenticate(accounts, users, id, pw);
            var byName := AccountsMatching(accounts, Username, id);
            var byMail := AccountsMatching(accounts, Mail, id);
            id != [] && |pw| >= 8 ==>
              && (|byName| == 1 ==> r == PasswordChecked(pw, FromAccount(byName[0])))
              && (|byName| > 1 ==> r == Failure(MultipleRowsMessage))
              && (byName == [] && |byMail| == 1 ==> r == PasswordChecked(pw, FromAccount(byMail[0])))
              && (byName == [] && |byMail| > 1 ==> r == Failure(MultipleRowsMessage))
  {
  }

  /**
   * Only when no account matches are users searched, by username then email,
   * in the same way; no match anywhere refuses the identifier.
   */
  lemma UsersDecideLogin(accounts: seq<AccountRow>, users: seq<UserRow>, id: string, pw: string)
    ensures var r := Authenticate(accounts, users, id, pw);
            var noAccount := AccountsMatching(accounts, Username, id) == [] && AccountsMatching(accounts, Mail, id) == [];
            var byName := UsersMatching(users, Username, id);
            var byMail := UsersMatching(users, Mail, id);
            id != [] && |pw| >= 8 && noAccount ==>
              && (|byName| == 1 ==> r == PasswordChecked(pw, FromUser(byName[0])))
              && (|byName| > 1 ==> r == Failure(MultipleRowsMessage))
              && (byName == [] && |byMail| == 1 ==> r == PasswordChecked(pw, FromUser(byMail[0])))
              && (byName == [] && |byMail| > 1 ==> r == Failure(MultipleRowsMessage))
              && (byName == [] && byMail == [] ==> r == Failure(InvalidIdentifierMessage))
  {
  }

  /**
   * `LoginSerializer.validate`: the identifier is the first given of
   * `identifier`, `username`, `gmail`, `email`, stripped, and a missing
   * password counts as empty; the rest is `Authenticate`.
   */
  function LegacyLogin(accounts: seq<AccountRow>, users: seq<UserRow>,
                       identifier: Option<string>, username: Option<string>, gmail: Option<string>, email: Option<string>,
                       password: Option<string>): (r: Result<Principal, string>)
    ensures var id := Strip(FirstGiven([identifier, username, gmail, email]));
            var pw := if Given(password) then password.value else "";
            && (id == [] ==> r == Failure(InvalidIdentifierMessage))
            && (id != [] && |pw| < 8 ==> r == Failure(ShortPasswordMessage))
            && (r.Success? ==> |pw| >= 8 && CheckPassword(pw, r.value.Password()))
            && (r.Success? && r.value.FromAccount? ==>
                  r.value.account in accounts
                  && (IEquals(r.value.account.username, id) || IEquals(r.value.account.gmail, id)))
            && (r.Success? && r.value.FromUser? ==>
                  AccountLookup(accounts, id) == Success(None) && r.value.user in users
                  && (IEquals(r.value.user.username, id) || IEquals(r.value.user.email, id)))
            && r == Authenticate(accounts, users, id, pw)
  {
    Authenticate(accounts, users, Strip(FirstGiven([identifier, username, gmail, email])),
                 if Given(password) then password.value else "")
  }

  lemma FirstIsMember<T>(m: seq<T>)
    ensures m != [] ==> m[0] in m
  {
  }

  /** An identifier that no account and no user carries in any lookup column is refused as invalid. */
  lemma UnknownIdentifierRefused(accounts: seq<AccountRow>, users: seq<UserRow>, id: string, pw: string)
    requires id != [] && |pw| >= 8
    requires forall a :: a in accounts ==> !IEquals(a.username, id) && !IEquals(a.gmail, id)
    requires forall u :: u in users ==> !IEquals(u.username, id) && !IEquals(u.email, id)
    ensures Authenticate(accounts, users, id, pw) == Failure(InvalidIdentifierMessage)
  {
    forall a | a in accounts ensures !IEquals(AccountField(a, Username), id) && !IEquals(AccountField(a, Mail), id) {
    }
    forall u | u in users ensures !IEquals(UserField(u, Username), id) && !IEquals(UserField(u, Mail), id) {
    }
    var accountsByName, accountsByMail := AccountsMatching(accounts, Username, id), AccountsMatching(accounts, Mail, id);
    var usersByName, usersByMail := UsersMatching(users, Username, id), UsersMatching(users, Mail, id);
    FirstIsMember(accountsByName);
    FirstIsMember(accountsByMail);
    FirstIsMember(usersByName);
    FirstIsMember(usersByMail);
    assert accountsByName == [] && accountsByMail == [];
    assert usersByName == [] && usersByMail == [];
  }

  /** The first given candidate is used even when a later one would match a user. */
  lemma IdentifierTakesPrecedence(accounts: seq<AccountRow>, users: seq<UserRow>, identifier: string,
                                  username: Option<string>, gmail: Option<string>, email: Option<string>, password: Option<string>)
    requires identifier != ""
    ensures LegacyLogin(accounts, users, Some(identifier), username, gmail, email, password)
            == LegacyLogin(accounts, users, Some(identifier), None, None, None, password)
  {
    assert FirstGiven([Some(identifier), username, gmail, email]) == identifier;
    assert FirstGiven([Some(identifier), None, None, None]) == identifier;
  }

  // ---------------------------------------------------------------------------
  // Reset password
  // ---------------------------------------------------------------------------

  predicate HasUpper(p: string) { exists i :: 0 <= i < |p| && IsUpper(p[i]) }
  predicate HasDigit(p: string) { exists i :: 0 <= i < |p| && IsDigit(p[i]) }
  /** `re.search(r"[^A-Za-z0-9]", p)` */
  predicate HasSpecial(p: string) { exists i :: 0 <= i < |p| && !IsAlnum(p[i]) }

  predicate StrongPassword(p: string) {
    |p| >= 8 && HasUpper(p) && HasDigit(p) && HasSpecial(p)
  }

  /**
   * `ResetPasswordSerializer.validate`: mismatched passwords are refused
   * first, then any password without length 8, an upper-case letter, a digit
   * and a character other than a letter or digit; an accepted password is
   * kept as given.
   */
  function ValidateReset(newPassword: string, confirmPassword: string): (r: Result<string, string>)
    ensures r.Failure? <==> newPassword != confirmPassword || !StrongPassword(newPassword)
    ensures newPassword != confirmPassword ==> r == Failure(MismatchMessage)
    ensures newPassword == confirmPassword && !StrongPassword(newPassword) ==> r == Failure(WeakPasswordMessage)
    ensures r.Success? ==> r.value == newPassword
  {
    if newPassword != confirmPassword then Failure(MismatchMessage)
    else if !StrongPassword(newPassword) then Failure(WeakPasswordMessage)
    else Success(newPassword)
  }

  /** The policy is real: a password of one class of characters fails, one with all four passes. */
  lemma PolicyExamples()
    ensures ValidateReset("password", "password") == Failure(WeakPasswordMessage)
    ensures ValidateReset("Passw0rd!", "Passw0rd!") == Success("Passw0rd!")
  {
    var weak := "password";
    assert !HasUpper(weak) by {
      forall i | 0 <= i < |weak| ensures !IsUpper(weak[i]) {
      }
    }
    var strong := "Passw0rd!";
    assert IsUpper(strong[0]) && IsDigit(strong[5]) && !IsAlnum(strong[8]);
  }

  /** Whatever this policy accepts, the newer reset validator accepts too. */
  lemma LegacyPolicyIsStricter(newPassword: string, confirmPassword: string)
    requires ValidateReset(newPassword, confirmPassword).Success?
    ensures PasswordReset.ValidateNewPassword(newPassword, confirmPassword) == Success(newPassword)
  {
  }

  /**
   * The token `ResetPasswordSerializer.save` uses: the `X-Reset-Token` header
   * when given, otherwise `reset_token` from the body; without either it is
   * refused.
   */
  function ResetToken(header: Option<string>, body: Option<string>): (r: Result<string, string>)
    ensures r.Failure? <==> !Given(header) && !Given(body)
    ensures r.Failure? ==> r.error == MissingTokenMessage
    ensures r.Success? && Given(header) ==> r.value == header.value
    ensures r.Success? && !Given(header) ==> Some(r.value) == body
  {
    if Given(header) then Success(header.value)
    else if Given(body) then Success(body.value)
    else Failure(MissingTokenMessage)
  }

  // ---------------------------------------------------------------------------
  // OTP codes and resend
  // ---------------------------------------------------------------------------

  /** `f"{random.randint(0, 9999):04d}"` for the drawn number. */
  function LegacyCode(draw: int): (r: string)
    requires 0 <= draw <= 9999
    ensures |r| == 4 && AllDigits(r) && Value(r) == draw
  {
    ValueOfZeroPad(draw, 4);
    DecLength(draw);
    FormatPadded(draw, 4)
  }

  /** Every code is 4 digits and distinct draws give distinct codes. */
  lemma LegacyCodeInjective(a: int, b: int)
    requires 0 <= a <= 9999 && 0 <= b <= 9999 && LegacyCode(a) == LegacyCode(b)
    ensures a == b
  {
  }

  /** A stored OTP row of this flow. */
  datatype LegacyOtp = LegacyOtp(gmail: string, code: string, isUsed: bool)

  /** `f"otp_rate_{gmail.lower()}"` */
  function ResendKey(gmail: string): string {
    "otp_rate_" + Lower(gmail)
  }

  /** Addresses that differ only in case share one rate limit. */
  lemma ResendKeyIgnoresCase(a: string, b: string)
    requires IEquals(a, b)
    ensures ResendKey(a) == ResendKey(b)
  {
  }

  /** `f"Please wait {rate_limit_seconds} seconds before requesting a new OTP."` */
  function WaitMessage(): string {
    "Please wait " + Dec(RateLimitSeconds) + " seconds before requesting a new OTP."
  }

  /** `PasswordResetOTP.objects.filter(gmail__iexact=gmail, is_used=False).update(is_used=True)` */
  function MarkedUsed(otps: seq<LegacyOtp>, gmail: string): (r: seq<LegacyOtp>)
    ensures |r| == |otps|
    ensures forall i :: 0 <= i < |r| && IEquals(otps[i].gmail, gmail) ==> r[i] == otps[i].(isUsed := true)
    ensures forall i :: 0 <= i < |r| && !IEquals(otps[i].gmail, gmail) ==> r[i] == otps[i]
  {
    seq(|otps|, i requires 0 <= i < |otps| =>
      if IEquals(otps[i].gmail, gmail) && !otps[i].isUsed then otps[i].(isUsed := true) else otps[i])
  }

  class LegacyResendService {
    var cache: Store
    var otps: seq<LegacyOtp>

    constructor ()
      ensures cache == map[] && otps == []
    {
      cache := map[];
      otps := [];
    }

    /**
     * `ResendOTPSerializer.save` for `gmail` at time `now`, with the drawn
     * number and whether the mail went out as parameters. While the address's
     * rate key is live nothing changes. Otherwise the address's unused OTPs
     * are used up and a new one is stored; only when the mail went out is the
     * rate key set, for 60 seconds.
     */
    method Resend(gmail: string, now: int, draw: int, sent: bool) returns (r: Result<LegacyOtp, string>)
      requires 0 <= draw <= 9999
      modifies this
      ensures Truthy(Get(old(cache), ResendKey(gmail), now)) ==>
                r == Failure(WaitMessage()) && cache == old(cache) && otps == old(otps)
      ensures !Truthy(Get(old(cache), ResendKey(gmail), now)) ==>
                && otps == MarkedUsed(old(otps), gmail) + [LegacyOtp(gmail, LegacyCode(draw), false)]
                && (!sent ==> r == Failure(SendFailedMessage) && cache == old(cache))
                && (sent ==> r == Success(LegacyOtp(gmail, LegacyCode(draw), false))
                             && cache == Put(old(cache), ResendKey(gmail), 1, RateLimitSeconds, now))
    {
      var key := ResendKey(gmail);
      if Truthy(Get(cache, key, now)) {
        return Failure(WaitMessage());
      }
      for i := 0 to |otps|
        invariant |otps| == |old(otps)|
        invariant forall k :: 0 <= k < i ==> otps[k] == MarkedUsed(old(otps), gmail)[k]
        invariant forall k :: i <= k < |otps| ==> otps[k] == old(otps)[k]
        invariant cache == old(cache)
      {
        if IEquals(otps[i].gmail, gmail) && !otps[i].isUsed {
          otps := otps[i := otps[i].(isUsed := true)];
        }
      }
      var otp := LegacyOtp(gmail, LegacyCode(draw), false);
      otps := otps + [otp];
      if !sent {
        return Failure(SendFailedMessage);
      }
      cache := Put(cache, key, 1, RateLimitSeconds, now);
      r := Success(otp);
    }
  }

  /** After a resend the new OTP is the only unused one for its address, in any case. */
  lemma ResendLeavesOneUsable(otps: seq<LegacyOtp>, gmail: string, code: string)
    ensures var after := MarkedUsed(otps, gmail) + [LegacyOtp(gmail, code, false)];
            forall i :: 0 <= i < |after| && IEquals(after[i].gmail, gmail) && !after[i].isUsed ==> i == |after| - 1
  {
  }
}
