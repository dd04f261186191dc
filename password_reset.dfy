/**
 * The account flows of the project's API: login, the OTP request throttle,
 * OTP verification, the password reset by token, and OTP resend. The cache,
 * the OTP table and the stored passwords are the state; the user a request is
 * for, the time, the drawn digits and the token of a new OTP are parameters.
 */
module PasswordReset {
  import opened Wrappers
  import opened Text
  import opened Auth
  import opened Otp
  import opened CacheStore

  const TooManyMessage := "Too many attempts. Please wait 10 minutes to resend otp"
  const WaitMessage := "Wait one minute before requesting new otp"
  const IdentifierRequiredMessage := "Identifier required"
  const ShortPasswordMessage := "Invalid password (min 8 chars)"
  const EmailNotRegisteredMessage := "Email not registered"
  const UsernameNotFoundMessage := "Username not found"
  const WrongPasswordMessage := "Invalid password"
  const FormatMessage := "Invalid OTP format"
  const ExpiredMessage := "OTP has expired"
  const AlreadyUsedMessage := "OTP already used"
  const InvalidOtpMessage := "Invalid OTP"
  const MismatchMessage := "Passwords do not match"
  const InvalidTokenMessage := "Invalid or used reset token"
  const TokenExpiredMessage := "Reset token expired"
  /** What `objects.get` raises when more than one row matches; nothing catches it. */
  const MultipleRowsMessage := "MultipleObjectsReturned"

  const MaxAttempts := 3
  const CooldownSeconds := 600
  const AttemptWindowSeconds := 600
  const RateSeconds := 60
  const RecentSeconds := 600
  const MinPasswordLength := 8
  const CodeLength := 4

  // ---------------------------------------------------------------------------
  // Login
  // ---------------------------------------------------------------------------

  /**
   * `LoginSerializer.validate`: the stripped identifier must be non-empty and
   * the password at least 8 characters, both before any lookup; an identifier
   * with '@' is looked up by Account gmail then User email, any other by
   * username in both tables; the password must then match.
   */
  /** The column both lookups filter on: the address columns when the identifier has '@', else username. */
  function LoginColumn(id: string): Column {
    if '@' in id then Mail else Username
  }

  function Login(accounts: seq<AccountRow>, users: seq<UserRow>, identifier: string, password: string)
    : (r: Result<Principal, string>)
    ensures Strip(identifier) == [] ==> r == Failure(IdentifierRequiredMessage)
    ensures Strip(identifier) != [] && |password| < MinPasswordLength ==> r == Failure(ShortPasswordMessage)
    ensures r.Success? ==> |password| >= MinPasswordLength && CheckPassword(password, r.value.Password())
    ensures r.Success? && '@' in Strip(identifier) ==>
              match r.value
              case FromAccount(a) => a in accounts && IEquals(a.gmail, Strip(identifier))
              case FromUser(u) => u in users && IEquals(u.email, Strip(identifier))
    ensures r.Success? && '@' !in Strip(identifier) ==>
              match r.value
              case FromAccount(a) => a in accounts && IEquals(a.username, Strip(identifier))
              case FromUser(u) => u in users && IEquals(u.username, Strip(identifier))
    ensures var id := Strip(identifier); var col := LoginColumn(id);
            id != [] && |password| >= MinPasswordLength
            && NoAccountMatches(accounts, col, id) && NoUserMatches(users, col, id) ==>
              r == Failure(if '@' in id then EmailNotRegisteredMessage else UsernameNotFoundMessage)
    ensures var id := Strip(identifier); var col := LoginColumn(id);
            forall i :: id != [] && |password| >= MinPasswordLength && AccountFirstAt(accounts, col, id, i) ==>
              r == (if CheckPassword(password, accounts[i].password) then Success(FromAccount(accounts[i]))
                    else Failure(WrongPasswordMessage))
    ensures var id := Strip(identifier); var col := LoginColumn(id);
            forall i :: id != [] && |password| >= MinPasswordLength
                        && NoAccountMatches(accounts, col, id) && UserFirstAt(users, col, id, i) ==>
              r == (if CheckPassword(password, users[i].password) then Success(FromUser(users[i]))
                    else Failure(WrongPasswordMessage))
  {
    var id := Strip(identifier);
    if id == [] then Failure(IdentifierRequiredMessage)
    else if |password| < MinPasswordLength then Failure(ShortPasswordMessage)
    else
      var col := LoginColumn(id);
      FirstAccountIsFirstMatch(accounts, col, id);
      FirstUserIsFirstMatch(users, col, id);
      var found :=
        match FirstAccount(accounts, col, id)
        case Some(a) => Some(FromAccount(a))
        case None =>
          match FirstUser(users, col, id)
          case Some(u) => Some(FromUser(u))
          case None => None;
      if found.None? then Failure(if col == Mail then EmailNotRegisteredMessage else UsernameNotFoundMessage)
      else if !CheckPassword(password, found.value.Password()) then Failure(WrongPasswordMessage)
      else Success(found.value)
  }

  /** An Account row that matches wins over any User row, whatever the User table holds. */
  lemma LoginPrefersAccount(accounts: seq<AccountRow>, users: seq<UserRow>, other: seq<UserRow>,
                            identifier: string, password: string)
    requires FirstAccount(accounts, LoginColumn(Strip(identifier)), Strip(identifier)).Some?
    ensures Login(accounts, users, identifier, password) == Login(accounts, other, identifier, password)
  {
  }

  // ---------------------------------------------------------------------------
  // The request and resend throttle
  // ---------------------------------------------------------------------------

  function CooldownKey(user: nat): string { "otp_cooldown_" + Dec(user) }
  function AttemptKey(user: nat): string { "otp_attempts_" + Dec(user) }
  function RateKey(user: nat): string { "otp_req_" + Dec(user) }

  lemma PrefixedInjective(p: string, u: nat, v: nat)
    requires p + Dec(u) == p + Dec(v)
    ensures u == v
  {
    assert (p + Dec(u))[|p|..] == Dec(u);
    assert (p + Dec(v))[|p|..] == Dec(v);
    DecInjective(u, v);
  }

  /** The three key families never meet, and each names one user. */
  lemma ThrottleKeysDistinct(u: nat, v: nat)
    ensures CooldownKey(u) != AttemptKey(v) && CooldownKey(u) != RateKey(v) && AttemptKey(u) != RateKey(v)
    ensures CooldownKey(u) == CooldownKey(v) ==> u == v
    ensures AttemptKey(u) == AttemptKey(v) ==> u == v
    ensures RateKey(u) == RateKey(v) ==> u == v
  {
    assert CooldownKey(u)[4] == 'c' && AttemptKey(v)[4] == 'a' && RateKey(v)[4] == 'r';
    assert AttemptKey(u)[4] == 'a';
    if CooldownKey(u) == CooldownKey(v) { PrefixedInjective("otp_cooldown_", u, v); }
    if AttemptKey(u) == AttemptKey(v) { PrefixedInjective("otp_attempts_", u, v); }
    if RateKey(u) == RateKey(v) { PrefixedInjective("otp_req_", u, v); }
  }

  /** `cache.get(attempt_key, 0)` */
  function Attempts(c: Store, user: nat, now: int): int {
    Get(c, AttemptKey(user), now).GetOr(0)
  }

  /** The cache after the throttle, and the refusal if there is one. */
  datatype Throttle = Throttle(cache: Store, refusal: Option<string>)

  /**
   * The cache checks of `OTPRequestSerializer.save` (`rateLimited`) and
   * `ResendOTPSerializer.save` (not rate limited), in their order: a live
   * cooldown refuses; three or more attempts start the cooldown, forget the
   * attempts and refuse; a live rate key refuses; otherwise the attempt is
   * counted for 10 minutes and, when rate limited, the rate key is set for 60
   * seconds. Only the user's own three keys are touched.
   */
  function ThrottleStep(c: Store, user: nat, now: int, rateLimited: bool): (r: Throttle)
    ensures forall k :: k != CooldownKey(user) && k != AttemptKey(user) && k != RateKey(user) ==>
              (k in r.cache <==> k in c) && (k in c ==> r.cache[k] == c[k])
  {
    if Truthy(Get(c, CooldownKey(user), now)) then Throttle(c, Some(TooManyMessage))
    else
      var attempts := Attempts(c, user, now);
      if attempts >= MaxAttempts then
        Throttle(Put(c, CooldownKey(user), 1, CooldownSeconds, now) - {AttemptKey(user)}, Some(TooManyMessage))
      else if rateLimited && Truthy(Get(c, RateKey(user), now)) then Throttle(c, Some(WaitMessage))
      else
        var counted := Put(c, AttemptKey(user), attempts + 1, AttemptWindowSeconds, now);
        Throttle(if rateLimited then Put(counted, RateKey(user), 1, RateSeconds, now) else counted, None)
  }

  /**
   * The order of the checks: a cooldown refuses before the counter is read and
   * changes nothing; an exhausted counter starts a 10-minute cooldown and is
   * forgotten; a live rate key refuses without counting; an accepted request
   * counts exactly one attempt and, when rate limited, holds off the next
   * request for 60 seconds.
   */
  lemma ThrottleOrder(c: Store, user: nat, now: int, rateLimited: bool)
    ensures var r := ThrottleStep(c, user, now, rateLimited);
            var cooling := Truthy(Get(c, CooldownKey(user), now));
            var attempts := Attempts(c, user, now);
            var waiting := rateLimited && Truthy(Get(c, RateKey(user), now));
            && (cooling ==> r == Throttle(c, Some(TooManyMessage)))
            && (!cooling && attempts >= MaxAttempts ==>
                  && r.refusal == Some(TooManyMessage) && Attempts(r.cache, user, now) == 0
                  && forall t :: now <= t < now + CooldownSeconds ==> Truthy(Get(r.cache, CooldownKey(user), t)))
            && (!cooling && attempts < MaxAttempts && waiting ==> r == Throttle(c, Some(WaitMessage)))
            && (r.refusal.None? <==> !cooling && attempts < MaxAttempts && !waiting)
            && (r.refusal.None? ==>
                  && Attempts(r.cache, user, now) == attempts + 1
                  && Truthy(Get(r.cache, CooldownKey(user), now)) == cooling
                  && (rateLimited ==> forall t :: now <= t < now + RateSeconds ==> Truthy(Get(r.cache, RateKey(user), t))))
  {
    ThrottleKeysDistinct(user, user);
  }

  /** The attempt counter never goes above three: a request is counted only while fewer than three are. */
  lemma AttemptsNeverExceedThree(c: Store, user: nat, now: int, rateLimited: bool, t: int)
    requires Attempts(c, user, t) <= MaxAttempts
    ensures Attempts(ThrottleStep(c, user, now, rateLimited).cache, user, t) <= MaxAttempts
  {
    ThrottleKeysDistinct(user, user);
  }

  /** One user's requests leave every other user's throttle as it was. */
  lemma OtherUserUnaffected(c: Store, u: nat, v: nat, now: int, rateLimited: bool, t: int, otherLimited: bool)
    requires u != v
    ensures ThrottleStep(ThrottleStep(c, u, now, rateLimited).cache, v, t, otherLimited).refusal
            == ThrottleStep(c, v, t, otherLimited).refusal
  {
    ThrottleKeysDistinct(u, v);
    ThrottleKeysDistinct(v, u);
    var after := ThrottleStep(c, u, now, rateLimited).cache;
    assert Get(after, CooldownKey(v), t) == Get(c, CooldownKey(v), t);
    assert Get(after, AttemptKey(v), t) == Get(c, AttemptKey(v), t);
    assert Get(after, RateKey(v), t) == Get(c, RateKey(v), t);
  }

  /**
   * Three requests a minute apart are accepted, and a fourth within ten
   * minutes of the third is refused and starts the cooldown.
   */
  lemma FourthRequestRefused(c: Store, user: nat, t1: int, t2: int, t3: int, t4: int)
    requires CooldownKey(user) !in c && AttemptKey(user) !in c && RateKey(user) !in c
    requires t1 + RateSeconds <= t2 && t2 + RateSeconds <= t3 && t3 + RateSeconds <= t4
    requires t2 < t1 + AttemptWindowSeconds && t3 < t2 + AttemptWindowSeconds && t4 < t3 + AttemptWindowSeconds
    ensures var s1 := ThrottleStep(c, user, t1, true);
            var s2 := ThrottleStep(s1.cache, user, t2, true);
            var s3 := ThrottleStep(s2.cache, user, t3, true);
            var s4 := ThrottleStep(s3.cache, user, t4, true);
            s1.refusal.None? && s2.refusal.None? && s3.refusal.None?
            && s4.refusal == Some(TooManyMessage) && Truthy(Get(s4.cache, CooldownKey(user), t4))
  {
    ThrottleKeysDistinct(user, user);
    var s1 := ThrottleStep(c, user, t1, true);
    assert Attempts(s1.cache, user, t2) == 1;
    var s2 := ThrottleStep(s1.cache, user, t2, true);
    assert Attempts(s2.cache, user, t3) == 2;
    var s3 := ThrottleStep(s2.cache, user, t3, true);
    assert Attempts(s3.cache, user, t4) == 3;
  }

  // ---------------------------------------------------------------------------
  // Verification and reset
  // ---------------------------------------------------------------------------

  /** `raw.isdigit() and len(raw) == 4` */
  predicate WellFormedCode(raw: string) {
    |raw| == CodeLength && AllDigits(raw)
  }

  /**
   * The checks `validate` makes on the newest active OTP, in order: expiry,
   * use, then the code; None when the OTP accepts `raw`.
   */
  function LatestOtpError(raw: string, expired: bool, used: bool, codeHash: PasswordHash): (r: Option<string>)
    ensures r.None? <==> !expired && !used && CheckPassword(raw, codeHash)
    ensures expired ==> r == Some(ExpiredMessage)
    ensures !expired && used ==> r == Some(AlreadyUsedMessage)
    ensures !expired && !used && !CheckPassword(raw, codeHash) ==> r == Some(InvalidOtpMessage)
  {
    if expired then Some(ExpiredMessage)
    else if used then Some(AlreadyUsedMessage)
    else if !CheckPassword(raw, codeHash) then Some(InvalidOtpMessage)
    else None
  }

  /**
   * `OTPVerifySerializer.validate` for the resolved user (None when the email
   * is not registered) at time `now`: the OTP it marks verified, or the error.
   */
  function VerifyDecision(otps: seq<PasswordResetOtp>, user: Option<nat>, input: string, now: int)
    : (r: Result<PasswordResetOtp, string>)
    reads set o | o in otps
    ensures r.Success? ==> r.value in otps && user == Some(r.value.user)
  {
    var raw := Strip(input);
    if !WellFormedCode(raw) then Failure(FormatMessage)
    else if user.None? then Failure(EmailNotRegisteredMessage)
    else
      var active := ActiveFor(otps, user.value, now);
      var recent := Select(otps, user.value, now - RecentSeconds, false);
      match LatestOf(active)
      case None =>
        (match LatestOf(recent)
         case Some(r) => if CheckPassword(raw, r.codeHash) then Failure(ExpiredMessage) else Failure(InvalidOtpMessage)
         case None => Failure(ExpiredMessage))
      case Some(o) =>
        match LatestOtpError(raw, o.Expired(ExpiryMinutes, now), o.isUsed, o.codeHash)
        case Some(e) => Failure(e)
        case None => Success(o)
  }

  /** A malformed code is refused before the user or the table is looked at. */
  lemma VerifyFormatFirst(otps: seq<PasswordResetOtp>, user: Option<nat>, input: string, now: int)
    requires !WellFormedCode(Strip(input))
    ensures VerifyDecision(otps, user, input, now) == Failure(FormatMessage)
  {
  }

  /**
   * Verification succeeds exactly when the code is well formed, the user is
   * known, and the newest active OTP of the user accepts the code; that OTP is
   * the one verified.
   */
  lemma VerifySucceedsIff(otps: seq<PasswordResetOtp>, user: Option<nat>, input: string, now: int)
    ensures var d := VerifyDecision(otps, user, input, now);
            d.Success? <==> WellFormedCode(Strip(input)) && user.Some?
                            && LatestOf(ActiveFor(otps, user.value, now)).Some?
                            && CheckPassword(Strip(input), LatestOf(ActiveFor(otps, user.value, now)).value.codeHash)
    ensures var d := VerifyDecision(otps, user, input, now);
            d.Success? ==> Some(d.value) == LatestOf(ActiveFor(otps, user.value, now)) && d.value.user == user.value
  {
    if WellFormedCode(Strip(input)) && user.Some? && LatestOf(ActiveFor(otps, user.value, now)).Some? {
      ActiveIsUnexpiredAndUnused(otps, user.value, now, LatestOf(ActiveFor(otps, user.value, now)).value);
    }
  }

  /**
   * With the default settings "OTP already used" is never answered, and
   * "OTP has expired" only when the user has no active OTP: the active set
   * holds only unused rows younger than the two-minute expiry.
   */
  lemma UsedAndExpiredChecksNeverFire(otps: seq<PasswordResetOtp>, user: nat, input: string, now: int)
    requires WellFormedCode(Strip(input)) && ActiveFor(otps, user, now) != []
    ensures VerifyDecision(otps, Some(user), input, now) != Failure(AlreadyUsedMessage)
    ensures VerifyDecision(otps, Some(user), input, now) != Failure(ExpiredMessage)
  {
    var o := LatestOf(ActiveFor(otps, user, now)).value;
    ActiveIsUnexpiredAndUnused(otps, user, now, o);
    assert VerifyDecision(otps, Some(user), input, now)
           == if CheckPassword(Strip(input), o.codeHash) then Success(o) else Failure(InvalidOtpMessage);
  }

  /**
   * The failures after the format check: an unknown email is "Email not
   * registered"; a user with no active OTP is judged by the newest OTP of the
   * last ten minutes, "OTP has expired" when there is none or it accepts the
   * code, and "Invalid OTP" when it does not.
   */
  lemma NoActiveOtpFallback(otps: seq<PasswordResetOtp>, user: Option<nat>, input: string, now: int)
    ensures WellFormedCode(Strip(input)) && user.None? ==>
              VerifyDecision(otps, user, input, now) == Failure(EmailNotRegisteredMessage)
    ensures WellFormedCode(Strip(input)) && user.Some? && ActiveFor(otps, user.value, now) == [] ==>
              var newest := LatestOf(Select(otps, user.value, now - RecentSeconds, false));
              VerifyDecision(otps, user, input, now)
              == if newest.None? || CheckPassword(Strip(input), newest.value.codeHash)
                 then Failure(ExpiredMessage) else Failure(InvalidOtpMessage)
  {
  }

  /**
   * `ResetPasswordSerializer.validate`: the passwords must match, then be at
   * least 8 characters; the accepted password is returned as given.
   */
  function ValidateNewPassword(newPassword: string, confirmPassword: string): (r: Result<string, string>)
    ensures r.Failure? <==> newPassword != confirmPassword || |newPassword| < MinPasswordLength
    ensures newPassword != confirmPassword ==> r == Failure(MismatchMessage)
    ensures newPassword == confirmPassword && |newPassword| < MinPasswordLength ==> r == Failure(ShortPasswordMessage)
    ensures r.Success? ==> r.value == newPassword
  {
    if newPassword != confirmPassword then Failure(MismatchMessage)
    else if |newPassword| < MinPasswordLength then Failure(ShortPasswordMessage)
    else Success(newPassword)
  }

  predicate Resettable(o: PasswordResetOtp, token: nat)
    reads o
  {
    o.token == token && o.isVerified && !o.isUsed
  }

  /** `PasswordResetOTP.objects.filter(token=token, is_verified=True, is_used=False)`, in table order. */
  function ResettableOtps(otps: seq<PasswordResetOtp>, token: nat): (r: seq<PasswordResetOtp>)
    reads otps
    ensures forall o :: o in r ==> o in otps && Resettable(o, token)
    ensures r == [] <==> forall i :: 0 <= i < |otps| ==> !Resettable(otps[i], token)
    ensures forall i :: 0 <= i < |otps| && Resettable(otps[i], token) ==> otps[i] in r
  {
    if otps == [] then []
    else
      var last := otps[|otps| - 1];
      ResettableOtps(otps[..|otps| - 1], token) + (if Resettable(last, token) then [last] else [])
  }

  // ---------------------------------------------------------------------------
  // The state the serializers act on
  // ---------------------------------------------------------------------------

  /**
   * `PasswordResetOTP.objects.filter(user=user, is_used=False).update(is_used=True)`:
   * every OTP of the user is used up; nothing else changes.
   */
  method UseUpUnused(table: seq<PasswordResetOtp>, user: nat)
    modifies table
    ensures forall o :: o in table ==> o.isUsed == (old(o.isUsed) || o.user == user)
    ensures forall o :: o in table ==> o.isVerified == old(o.isVerified) && o.codeHash == old(o.codeHash)
  {
    for i := 0 to |table|
      invariant forall k :: 0 <= k < i && table[k].user == user ==> table[k].isUsed
      invariant forall o :: o in table ==> o.isUsed == (old(o.isUsed) || (o.user == user && o.isUsed))
      invariant forall o :: o in table ==> o.isVerified == old(o.isVerified) && o.codeHash == old(o.codeHash)
    {
      var o := table[i];
      if o.user == user && !o.isUsed {
        o.isUsed := true;
      }
    }
  }

  class ResetService {
    var cache: Store
    /** The `PasswordResetOTP` table, oldest first. */
    var otps: seq<PasswordResetOtp>
    /** The stored password of each user. */
    var passwords: map<nat, PasswordHash>

    constructor (passwords: map<nat, PasswordHash>)
      ensures cache == map[] && otps == [] && this.passwords == passwords
    {
      cache := map[];
      otps := [];
      this.passwords := passwords;
    }

    /**
     * `OTPRequestSerializer.save` for `user` at time `now`: the throttle
     * decides; when it lets the request through, a fresh 4-digit OTP is added
     * to the table and its code returned (it is what gets mailed).
     */
    method RequestOtp(user: nat, now: int, token: nat, draws: seq<nat>) returns (r: Result<string, string>)
      requires |draws| == CodeLength && forall i :: 0 <= i < |draws| ==> draws[i] < 10
      modifies this
      ensures var step := ThrottleStep(old(cache), user, now, true);
              && cache == step.cache && passwords == old(passwords)
              && (r.Failure? <==> step.refusal.Some?)
              && (r.Failure? ==> r.error == step.refusal.value && otps == old(otps))
      ensures r.Success? ==>
                && |otps| == |old(otps)| + 1 && otps[..|old(otps)|] == old(otps)
                && var o := otps[|old(otps)|];
                && fresh(o) && o.user == user && o.createdAt == now && o.token == token && !o.isUsed && !o.isVerified
                && r.value == RawCode(draws) && forall other :: CheckPassword(other, o.codeHash) <==> other == r.value
    {
      ThrottleKeysDistinct(user, user);
      var cooldownKey := CooldownKey(user);
      if Truthy(Get(cache, cooldownKey, now)) {
        return Failure(TooManyMessage);
      }
      var attemptKey := AttemptKey(user);
      var attempts := Get(cache, attemptKey, now).GetOr(0);
      if attempts >= MaxAttempts {
        cache := Put(cache, cooldownKey, 1, CooldownSeconds, now);
        cache := cache - {attemptKey};
        return Failure(TooManyMessage);
      }
      var rateKey := RateKey(user);
      if Truthy(Get(cache, rateKey, now)) {
        return Failure(WaitMessage);
      }
      cache := Put(cache, attemptKey, attempts + 1, AttemptWindowSeconds, now);
      var otp, raw := CreateForUser(user, CodeLength, now, token, draws);
      otps := otps + [otp];
      cache := Put(cache, rateKey, 1, RateSeconds, now);
      r := Success(raw);
    }

    /**
     * `OTPVerifySerializer.validate`: on success the chosen OTP is marked
     * verified (not used) and its token returned. Only `is_verified` flags
     * may change, and only the chosen OTP's.
     */
    method VerifyOtp(user: Option<nat>, input: string, now: int) returns (r: Result<nat, string>)
      modifies otps`isVerified
      ensures var d := old(VerifyDecision(otps, user, input, now));
              && (r.Success? <==> d.Success?)
              && (d.Success? ==> r.value == d.value.token && d.value.isVerified)
              && (d.Failure? ==> r.error == d.error)
      ensures forall o :: o in otps && o.isVerified != old(o.isVerified) ==>
                old(VerifyDecision(otps, user, input, now)) == Success(o)
    {
      var d := VerifyDecision(otps, user, input, now);
      if d.Failure? {
        return Failure(d.error);
      }
      var o := d.value;
      assert o in otps;
      o.isVerified := true;
      r := Success(o.token);
    }

    /**
     * `ResetPasswordSerializer.save` with the validated password: exactly one
     * verified, unused OTP must carry the token and must not be expired; then
     * the owner's password is replaced and the OTP is used up, so the token
     * cannot reset again.
     */
    method ResetPassword(token: nat, validPassword: string, now: int) returns (r: Outcome<string>)
      modifies `passwords, otps
      ensures var m := old(ResettableOtps(otps, token));
              && (|m| == 0 ==> r == Fail(InvalidTokenMessage))
              && (|m| > 1 ==> r == Fail(MultipleRowsMessage))
              && (|m| == 1 && m[0].Expired(ExpiryMinutes, now) ==> r == Fail(TokenExpiredMessage))
              && (r.Pass? <==> |m| == 1 && !m[0].Expired(ExpiryMinutes, now))
              && (r.Fail? ==> passwords == old(passwords) && forall o :: o in otps ==> o.isUsed == old(o.isUsed))
              && (r.Pass? ==>
                    && passwords == old(passwords)[m[0].user := MakePassword(validPassword)]
                    && m[0].isUsed && ResettableOtps(otps, token) == []
                    && forall o :: o in otps && o != m[0] ==> o.isUsed == old(o.isUsed))
      ensures forall o :: o in otps ==> o.isVerified == old(o.isVerified) && o.codeHash == old(o.codeHash)
    {
      var matching := ResettableOtps(otps, token);
      if |matching| == 0 {
        return Fail(InvalidTokenMessage);
      }
      if |matching| > 1 {
        return Fail(MultipleRowsMessage);
      }
      var o := matching[0];
      if o.Expired(ExpiryMinutes, now) {
        return Fail(TokenExpiredMessage);
      }
      assert o in otps;
      passwords := passwords[o.user := MakePassword(validPassword)];
      o.MarkUsed();
      r := Pass;
      forall i | 0 <= i < |otps| ensures !Resettable(otps[i], token) {
        if otps[i] != o {
          assert !old(Resettable(otps[i], token));
        }
      }
    }

    /**
     * `ResendOTPSerializer.save` for `user` at time `now`: the throttle
     * without the rate key decides; when it lets the request through, every
     * unused OTP of the user is used up and a fresh 4-digit one is added, so
     * the new one is the user's only usable OTP.
     */
    method ResendOtp(user: nat, now: int, token: nat, draws: seq<nat>) returns (r: Result<string, string>)
      requires |draws| == CodeLength && forall i :: 0 <= i < |draws| ==> draws[i] < 10
      modifies this, otps
      ensures var step := ThrottleStep(old(cache), user, now, false);
              && cache == step.cache && passwords == old(passwords)
              && (r.Failure? <==> step.refusal.Some?)
              && (r.Failure? ==> r.error == step.refusal.value && otps == old(otps))
      ensures forall o :: o in old(otps) ==> o.isVerified == old(o.isVerified) && o.codeHash == old(o.codeHash)
      ensures r.Failure? ==> forall o :: o in old(otps) ==> o.isUsed == old(o.isUsed)
      ensures r.Success? ==>
                && |otps| == |old(otps)| + 1 && otps[..|old(otps)|] == old(otps)
                && (forall o :: o in old(otps) ==> o.isUsed == (old(o.isUsed) || o.user == user))
                && var n := otps[|old(otps)|];
                && fresh(n) && n.user == user && n.createdAt == now && n.token == token && !n.isUsed && !n.isVerified
                && r.value == RawCode(draws) && (forall other :: CheckPassword(other, n.codeHash) <==> other == r.value)
                && forall o :: o in otps && o.user == user && !o.isUsed ==> o == n
    {
      ThrottleKeysDistinct(user, user);
      var cooldownKey := CooldownKey(user);
      if Truthy(Get(cache, cooldownKey, now)) {
        return Failure(TooManyMessage);
      }
      var attemptKey := AttemptKey(user);
      var attempts := Get(cache, attemptKey, now).GetOr(0);
      if attempts >= MaxAttempts {
        cache := Put(cache, cooldownKey, 1, CooldownSeconds, now);
        cache := cache - {attemptKey};
        return Failure(TooManyMessage);
      }
      cache := Put(cache, attemptKey, attempts + 1, AttemptWindowSeconds, now);
      UseUpUnused(otps, user);
      var otp, raw := CreateForUser(user, CodeLength, now, token, draws);
      otps := otps + [otp];
      r := Success(raw);
      assert forall o :: o in otps ==> o in old(otps) || o == otp;
    }
  }
}
