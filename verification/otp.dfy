/** One-time SMS codes: generation, rate limit, expiry, single use and
    cleanup (users/models.py `SMSVerification`, users/services.py
    `OTPService`, users/serializers.py `VerifyOTPSerializer`). */
module Otp {
  import opened Wrappers
  import opened Errors
  import opened Text
  import opened Tables
  import Users

  const CodeLength: nat := 4
  const ExpireSeconds: nat := 120
  const RateLimitSeconds: nat := 60

  datatype Sms = Sms(phone: string, code: string, isUsed: bool, createdAt: nat)

  type Codes = Table<Sms>

  /** More than `ExpireSeconds` have passed since the code was created. */
  predicate IsExpired(s: Sms, now: nat) {
    now - s.createdAt > ExpireSeconds
  }

  /** A code for `phone` created at or after `now - RateLimitSeconds`. */
  predicate Recent(s: Sms, phone: string, now: nat) {
    s.phone == phone && s.createdAt >= now - RateLimitSeconds
  }

  /** `SMSVerification.can_send_sms`. */
  predicate CanSendSms(t: Codes, phone: string, now: nat) {
    !Any(t, (s: Sms) => Recent(s, phone, now))
  }

  /** Sending is refused exactly when some code for the phone, used or not,
      is at most `RateLimitSeconds` old. */
  lemma CanSendSmsIff(t: Codes, phone: string, now: nat)
    ensures !CanSendSms(t, phone, now) <==>
              exists k :: k in t.rows && t.rows[k].phone == phone && now - t.rows[k].createdAt <= RateLimitSeconds
  {
  }

  /** `_generate_code`: `draw` is the value of `secrets.randbelow(9000)`. */
  function GenerateCode(draw: nat): (code: string)
    requires draw < 9000
    ensures |code| == CodeLength && AllDigits(code)
    ensures Value(code) == draw + 1000
  {
    NatToStringFourDigits(draw + 1000);
    ValueOfNatToString(draw + 1000);
    NatToString(draw + 1000)
  }

  /** At most one unused code per phone number. */
  predicate OneUnusedPerPhone(t: Codes) {
    forall j, k ::
      j in t.rows && k in t.rows && !t.rows[j].isUsed && !t.rows[k].isUsed && t.rows[j].phone == t.rows[k].phone
      ==> j == k
  }

  function MarkUsed(s: Sms): Sms {
    s.(isUsed := true)
  }

  /** The code-table part of `OTPService.send_otp`: refuse a recent phone,
      retire every unused code for it, then store a fresh code. The new row's
      key is returned. */
  function SendCode(t: Codes, phone: string, draw: nat, now: nat): (r: Result<(Codes, nat), Error>)
    requires draw < 9000
    ensures r.Fail? <==> !CanSendSms(t, phone, now)
    ensures r.Fail? ==> r.error == RateLimited
    ensures r.Ok? ==> var (t', id) := r.value;
                      id !in t.rows && id == t.next && t'.rows.Keys == t.rows.Keys + {id}
                      && t'.rows[id] == Sms(phone, GenerateCode(draw), false, now)
                      && (forall k :: k in t.rows && t.rows[k].phone != phone ==> t'.rows[k] == t.rows[k])
                      && (forall k :: k in t.rows && t.rows[k].phone == phone ==> t'.rows[k] == MarkUsed(t.rows[k]))
  {
    if !CanSendSms(t, phone, now) then Fail(RateLimited)
    else
      var retired := UpdateWhere(t, (s: Sms) => s.phone == phone && !s.isUsed, MarkUsed);
      Ok(Insert(retired, Sms(phone, GenerateCode(draw), false, now)))
  }

  /** After a successful send the new code is the phone's only unused one. */
  lemma SendCodeLeavesOneUnused(t: Codes, phone: string, draw: nat, now: nat)
    requires draw < 9000 && OneUnusedPerPhone(t)
    ensures SendCode(t, phone, draw, now).Ok? ==> OneUnusedPerPhone(SendCode(t, phone, draw, now).value.0)
  {
  }

  /** The code just sent verifies for its phone until it expires. */
  lemma SendThenVerify(t: Codes, phone: string, draw: nat, now: nat, later: nat)
    requires draw < 9000 && now <= later <= now + ExpireSeconds
    requires SendCode(t, phone, draw, now).Ok?
    ensures VerifyCode(SendCode(t, phone, draw, now).value.0, phone, GenerateCode(draw), later).1
  {
    var (t', id) := SendCode(t, phone, draw, now).value;
    assert t'.rows[id].phone == phone && t'.rows[id].code == GenerateCode(draw) && !t'.rows[id].isUsed;
    assert !IsExpired(t'.rows[id], later);
  }

  /** `OTPService.verify_otp`: the newest unused code matching phone and
      code is accepted, and marked used, unless it has expired. */
  function VerifyCode(t: Codes, phone: string, code: string, now: nat): (r: (Codes, bool))
    ensures !r.1 ==> r.0 == t
    ensures r.1 ==> exists k :: k in t.rows && t.rows[k].phone == phone && t.rows[k].code == code
                                && !t.rows[k].isUsed && !IsExpired(t.rows[k], now)
                                && r.0 == Put(t, k, MarkUsed(t.rows[k]))
  {
    match Newest(t, (s: Sms) => s.phone == phone && s.code == code && !s.isUsed)
    case None => (t, false)
    case Some(k) =>
      if IsExpired(t.rows[k], now) then (t, false)
      else (Put(t, k, MarkUsed(t.rows[k])), true)
  }

  /** With one unused code per phone, verification succeeds exactly for the
      phone's unused, unexpired code. */
  lemma VerifyCodeIff(t: Codes, phone: string, code: string, now: nat)
    requires OneUnusedPerPhone(t)
    ensures VerifyCode(t, phone, code, now).1 <==>
              exists k :: k in t.rows && t.rows[k].phone == phone && t.rows[k].code == code
                          && !t.rows[k].isUsed && !IsExpired(t.rows[k], now)
  {
  }

  /** Marking a code used keeps the invariant. */
  lemma VerifyCodeKeepsOneUnused(t: Codes, phone: string, code: string, now: nat)
    requires OneUnusedPerPhone(t)
    ensures OneUnusedPerPhone(VerifyCode(t, phone, code, now).0)
  {
  }

  /** A code verifies at most once: repeating an accepted verification,
      at any later time, fails. */
  lemma {:induction false} VerifyCodeAtMostOnce(t: Codes, phone: string, code: string, now: nat, later: nat)
    requires OneUnusedPerPhone(t)
    requires VerifyCode(t, phone, code, now).1
    ensures !VerifyCode(VerifyCode(t, phone, code, now).0, phone, code, later).1
  {
    var t' := VerifyCode(t, phone, code, now).0;
    var k :| k in t.rows && t.rows[k].phone == phone && t.rows[k].code == code
             && !t.rows[k].isUsed && !IsExpired(t.rows[k], now)
             && t' == Put(t, k, MarkUsed(t.rows[k]));
    forall j | j in t'.rows && t'.rows[j].phone == phone
      ensures t'.rows[j].isUsed
    {
      if j != k {
        assert !t.rows[j].isUsed ==> j == k;
      }
    }
  }

  /** The rows `VerifyOTPSerializer.validate` looks for: unused, with the
      code, under the normalised phone or its bare digits. */
  function ForPhone(phone: string, code: string): Sms -> bool {
    (s: Sms) => s.code == code && !s.isUsed && (s.phone == phone || s.phone == Digits(phone))
  }

  /** `VerifyOTPSerializer.validate` once the phone field has normalised
      the input to `phone`: the code field refuses more than `CodeLength`
      characters; the newest matching row is checked for expiry and
      marked used; the row's own phone is returned. */
  function VerifyForPhone(t: Codes, phone: string, code: string, now: nat): (r: Result<(Codes, string), Error>)
    ensures r.Fail? ==> r.error in {CodeInvalid, CodeExpired}
    ensures r.Ok? ==> exists k :: k in t.rows && ForPhone(phone, code)(t.rows[k]) && !IsExpired(t.rows[k], now)
                                  && r.value == (Put(t, k, MarkUsed(t.rows[k])), t.rows[k].phone)
    ensures r.Fail? && r.error == CodeInvalid && |code| <= CodeLength ==>
              forall k :: k in t.rows ==> !ForPhone(phone, code)(t.rows[k])
  {
    if |code| > CodeLength then Fail(CodeInvalid)
    else
      match Newest(t, ForPhone(phone, code))
      case None => Fail(CodeInvalid)
      case Some(k) =>
        if IsExpired(t.rows[k], now) then Fail(CodeExpired)
        else Ok((Put(t, k, MarkUsed(t.rows[k])), t.rows[k].phone))
  }

  /** `VerifyOTPSerializer.validate`: the phone field normalises the input;
      a code row stored under either the `+998…` form or its bare digits is
      accepted; the newest unused match is checked for expiry and marked
      used; the row's own phone is returned. */
  function VerifyOtpRequest(t: Codes, phoneInput: string, code: string, now: nat): (r: Result<(Codes, string), Error>)
    ensures Users.NormalizePhone(phoneInput).Fail? ==> r == Fail(PhoneInvalid)
    ensures r.Fail? ==> r.error in {PhoneInvalid, CodeInvalid, CodeExpired}
    ensures r.Ok? ==> exists k :: k in t.rows && t.rows[k].code == code && !t.rows[k].isUsed
                                  && !IsExpired(t.rows[k], now)
                                  && (t.rows[k].phone == Users.NormalizePhone(phoneInput).value
                                      || t.rows[k].phone == Digits(Users.NormalizePhone(phoneInput).value))
                                  && r.value == (Put(t, k, MarkUsed(t.rows[k])), t.rows[k].phone)
    ensures r.Fail? && r.error == CodeInvalid && |code| <= CodeLength ==>
              forall k :: k in t.rows && t.rows[k].code == code && !t.rows[k].isUsed ==>
                t.rows[k].phone != Users.NormalizePhone(phoneInput).value
                && t.rows[k].phone != Digits(Users.NormalizePhone(phoneInput).value)
  {
    match Users.NormalizePhone(phoneInput)
    case Fail(_) => Fail(PhoneInvalid)
    case Ok(phone) => VerifyForPhone(t, phone, code, now)
  }

  /** An unused, unexpired code stored under the newest key passes the
      lookup for the phone form it carries. */
  lemma NewestCodeVerifies(t: Codes, id: nat, phone: string, later: nat)
    requires id in t.rows && id + 1 == t.next
    requires !t.rows[id].isUsed && !IsExpired(t.rows[id], later) && |t.rows[id].code| <= CodeLength
    requires t.rows[id].phone == phone || t.rows[id].phone == Digits(phone)
    ensures VerifyForPhone(t, phone, t.rows[id].code, later) == Ok((Put(t, id, MarkUsed(t.rows[id])), t.rows[id].phone))
  {
    assert ForPhone(phone, t.rows[id].code)(t.rows[id]);
    assert Newest(t, ForPhone(phone, t.rows[id].code)) == Some(id);
  }

  /** The code just sent for a phone passes the request path until it
      expires, whichever input normalises to that phone or to its bare
      digits: the new row is marked used and its own phone is returned. */
  lemma SendThenVerifyRequest(t: Codes, phone: string, draw: nat, now: nat, phoneInput: string, later: nat)
    requires draw < 9000 && now <= later <= now + ExpireSeconds
    requires SendCode(t, phone, draw, now).Ok?
    requires Users.NormalizePhone(phoneInput).Ok?
    requires phone == Users.NormalizePhone(phoneInput).value || phone == Digits(Users.NormalizePhone(phoneInput).value)
    ensures var (t', id) := SendCode(t, phone, draw, now).value;
            VerifyOtpRequest(t', phoneInput, GenerateCode(draw), later) == Ok((Put(t', id, MarkUsed(t'.rows[id])), phone))
  {
    var (t', id) := SendCode(t, phone, draw, now).value;
    assert id + 1 == t'.next by {
      assert id in t'.rows;
      assert t'.next == t.next + 1 by {
        var retired := UpdateWhere(t, (s: Sms) => s.phone == phone && !s.isUsed, MarkUsed);
        assert t' == Insert(retired, Sms(phone, GenerateCode(draw), false, now)).0;
      }
    }
    NewestCodeVerifies(t', id, Users.NormalizePhone(phoneInput).value, later);
  }

  /** `get_valid_sms`: the same lookup for one phone form, without marking
      the code used. */
  function ValidSms(t: Codes, phone: string, code: string, now: nat): (r: Result<nat, Error>)
    ensures r.Ok? ==> r.value in t.rows && t.rows[r.value].phone == phone && t.rows[r.value].code == code
                      && !t.rows[r.value].isUsed && !IsExpired(t.rows[r.value], now)
    ensures r == Fail(CodeInvalid) <==>
              forall k :: k in t.rows && t.rows[k].phone == phone && t.rows[k].code == code ==> t.rows[k].isUsed
    ensures r.Fail? ==> r.error in {CodeInvalid, CodeExpired}
  {
    match Newest(t, (s: Sms) => s.phone == phone && s.code == code && !s.isUsed)
    case None => Fail(CodeInvalid)
    case Some(k) => if IsExpired(t.rows[k], now) then Fail(CodeExpired) else Ok(k)
  }

  /** Cleanup's filter: unused and created before `now - ExpireSeconds`. */
  predicate Stale(s: Sms, now: nat) {
    !s.isUsed && s.createdAt < now - ExpireSeconds
  }

  /** `OTPService.cleanup_expired`: deletes the stale codes and returns how
      many there were. */
  function CleanupExpired(t: Codes, now: nat): (r: (Codes, nat))
    ensures forall k :: k in r.0.rows <==> k in t.rows && !(t.rows[k].isUsed == false && IsExpired(t.rows[k], now))
    ensures forall k :: k in r.0.rows ==> r.0.rows[k] == t.rows[k]
    ensures r.1 == |t.rows.Keys - r.0.rows.Keys|
  {
    var p := (s: Sms) => Stale(s, now);
    (DeleteWhere(t, p), Count(t, p))
  }

  /** Cleanup only deletes rows, so it keeps the invariant. */
  lemma CleanupKeepsOneUnused(t: Codes, now: nat)
    requires OneUnusedPerPhone(t)
    ensures OneUnusedPerPhone(CleanupExpired(t, now).0)
  {
  }
}
