/**
 * `PasswordResetOTP`: a one-time code issued to a user, stored hashed, with a
 * reset token. Time is a parameter counted in seconds.
 */
module Otp {
  import opened Wrappers
  import opened Text
  import opened Auth

  /** The default of `expired(minutes=2)`. */
  const ExpiryMinutes := 2
  /** The default of `PASSWORD_RESET_OTP_EXPIRY_SECONDS` read by `active_qs_for_user`. */
  const ActiveExpirySeconds := 30
  /** The default of `create_for_user(length=6)`. */
  const DefaultLength := 6

  class PasswordResetOtp {
    const user: nat
    var codeHash: PasswordHash
    const createdAt: int
    var isUsed: bool
    var isVerified: bool
    /** `token`, a UUID drawn at creation; here a parameter. */
    const token: nat

    /** A new row: no code yet, unused and unverified. */
    constructor (user: nat, createdAt: int, token: nat)
      ensures this.user == user && this.createdAt == createdAt && this.token == token
      ensures codeHash == Unusable && !isUsed && !isVerified
    {
      this.user := user;
      this.createdAt := createdAt;
      this.token := token;
      codeHash := Unusable;
      isUsed := false;
      isVerified := false;
    }

    /** `expired(minutes)` at time `now`: strictly later than `minutes` after creation. */
    predicate Expired(minutes: int, now: int)
      ensures Expired(minutes, now) <==> now - createdAt > minutes * 60
    {
      now > createdAt + minutes * 60
    }

    /** `mark_used()` */
    method MarkUsed()
      modifies `isUsed
      ensures isUsed
    {
      isUsed := true;
    }

    /** `set_code(raw_code)` */
    method SetCode(raw: string)
      modifies `codeHash
      ensures forall other :: CheckPassword(other, codeHash) <==> other == raw
    {
      codeHash := MakePassword(raw);
    }

    /**
     * `verify_code(raw_code)` at time `now`: a used or expired code is refused
     * without looking at it; a matching code marks the row verified but not
     * used; a wrong code changes nothing.
     */
    method VerifyCode(raw: string, now: int) returns (ok: bool)
      modifies `isVerified
      ensures ok <==> !isUsed && !Expired(ExpiryMinutes, now) && CheckPassword(raw, codeHash)
      ensures isVerified == (old(isVerified) || ok)
    {
      if isUsed || Expired(ExpiryMinutes, now) {
        return false;
      }
      ok := CheckPassword(raw, codeHash);
      if ok {
        isVerified := true;
      }
    }
  }

  /** Expiry is not reached at the boundary itself, is reached one second later, and once reached stays reached. */
  lemma ExpiryBoundary(o: PasswordResetOtp, minutes: int, now: int, later: int)
    ensures !o.Expired(minutes, o.createdAt + minutes * 60)
    ensures o.Expired(minutes, o.createdAt + minutes * 60 + 1)
    ensures o.Expired(minutes, now) && now <= later ==> o.Expired(minutes, later)
  {
  }

  /** A row of `user` that is unused (when `unusedOnly`) and created strictly after `cutoff`. */
  predicate Selected(o: PasswordResetOtp, user: nat, cutoff: int, unusedOnly: bool)
    reads o
  {
    o.user == user && (!unusedOnly || !o.isUsed) && o.createdAt > cutoff
  }

  /** `PasswordResetOTP.objects.filter(user=user, [is_used=False,] created_at__gt=cutoff)`, in table order. */
  function Select(otps: seq<PasswordResetOtp>, user: nat, cutoff: int, unusedOnly: bool): (r: seq<PasswordResetOtp>)
    reads otps
    ensures forall o :: o in r ==> o in otps && Selected(o, user, cutoff, unusedOnly)
    ensures forall i :: 0 <= i < |r| ==> r[i] in otps
    ensures forall i :: 0 <= i < |otps| && Selected(otps[i], user, cutoff, unusedOnly) ==> otps[i] in r
  {
    if otps == [] then []
    else
      var prefix, last := otps[..|otps| - 1], otps[|otps| - 1];
      assert forall i :: 0 <= i < |prefix| ==> prefix[i] == otps[i];
      Select(prefix, user, cutoff, unusedOnly) + (if Selected(last, user, cutoff, unusedOnly) then [last] else [])
  }

  /** `active_qs_for_user(user)` at time `now`. */
  function ActiveFor(otps: seq<PasswordResetOtp>, user: nat, now: int): (r: seq<PasswordResetOtp>)
    reads otps
    ensures forall o :: o in r ==> o in otps && Selected(o, user, now - ActiveExpirySeconds, true)
    ensures forall i :: 0 <= i < |r| ==> r[i] in otps
    ensures forall i :: 0 <= i < |otps| && Selected(otps[i], user, now - ActiveExpirySeconds, true) ==> otps[i] in r
  {
    Select(otps, user, now - ActiveExpirySeconds, true)
  }

  /** `.order_by('-created_at').first()`: a newest row; among equally new rows, the last in table order. */
  function LatestOf(s: seq<PasswordResetOtp>): (r: Option<PasswordResetOtp>)
    reads s
    ensures r.None? <==> s == []
    ensures r.Some? ==> r.value in s && forall o :: o in s ==> o.createdAt <= r.value.createdAt
  {
    if s == [] then None
    else
      var last := s[|s| - 1];
      var prev := LatestOf(s[..|s| - 1]);
      assert forall o :: o in s ==> o in s[..|s| - 1] || o == last;
      if prev.None? || prev.value.createdAt <= last.createdAt then Some(last) else prev
  }

  /**
   * With the default settings an active row is never expired and never used:
   * the active window (30 seconds) is shorter than the expiry (2 minutes).
   */
  lemma ActiveIsUnexpiredAndUnused(otps: seq<PasswordResetOtp>, user: nat, now: int, o: PasswordResetOtp)
    requires o in ActiveFor(otps, user, now)
    ensures !o.Expired(ExpiryMinutes, now) && !o.isUsed && o.user == user
  {
  }

  /** `''.join(str(random.randint(0, 9)) for _ in range(length))` for the drawn digits `draws`. */
  function RawCode(draws: seq<nat>): (r: string)
    requires forall i :: 0 <= i < |draws| ==> draws[i] < 10
    ensures |r| == |draws| && AllDigits(r)
    ensures forall i :: 0 <= i < |r| ==> DigitValue(r[i]) == draws[i]
  {
    seq(|draws|, i requires 0 <= i < |draws| => DigitChar(draws[i]))
  }

  /** Distinct draws give distinct codes. */
  lemma RawCodeInjective(a: seq<nat>, b: seq<nat>)
    requires forall i :: 0 <= i < |a| ==> a[i] < 10
    requires forall i :: 0 <= i < |b| ==> b[i] < 10
    requires RawCode(a) == RawCode(b)
    ensures a == b
  {
    assert |a| == |b|;
    forall i | 0 <= i < |a| ensures a[i] == b[i] {
      assert DigitValue(RawCode(a)[i]) == a[i];
      assert DigitValue(RawCode(b)[i]) == b[i];
    }
  }

  /**
   * `create_for_user(user, length)` at time `now`, with the drawn digits and
   * token as parameters: a fresh unused, unverified row whose hash accepts
   * exactly the returned code of `length` digits.
   */
  method CreateForUser(user: nat, length: nat, now: int, token: nat, draws: seq<nat>)
    returns (otp: PasswordResetOtp, raw: string)
    requires |draws| == length && forall i :: 0 <= i < |draws| ==> draws[i] < 10
    ensures fresh(otp)
    ensures otp.user == user && otp.createdAt == now && otp.token == token && !otp.isUsed && !otp.isVerified
    ensures raw == RawCode(draws) && |raw| == length && AllDigits(raw)
    ensures forall other :: CheckPassword(other, otp.codeHash) <==> other == raw
  {
    raw := RawCode(draws);
    otp := new PasswordResetOtp(user, now, token);
    otp.SetCode(raw);
  }
}
