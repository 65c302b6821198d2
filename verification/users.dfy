/** Accounts: phone-number normalisation, user records, registration and
    login (users/serializers.py, users/models.py). */
module Users {
  import opened Wrappers
  import opened Errors
  import opened Text
  import opened Tables

  const CountryCode: string := "998"

  /** The stored-phone validator `^\+998\d{9}$`. */
  predicate ValidPhone(p: string) {
    |p| == 13 && p[0] == '+' && p[1..4] == CountryCode && AllDigits(p[4..])
  }

  /** The shared tail of both normalisers: a local nine-digit number gets
      the country code, and only a twelve-digit number starting with it is
      accepted. */
  function FromDigits(d: string): (r: Result<string, Error>)
    requires AllDigits(d)
    ensures r.Ok? <==> |d| == 9 || (|d| == 12 && StartsWith(d, CountryCode))
    ensures r.Ok? ==> ValidPhone(r.value) && r.value[4..] == d[|d| - 9..]
    ensures r.Fail? ==> r.error == PhoneInvalid
  {
    var full := if |d| == 9 then CountryCode + d else d;
    if |full| == 12 && StartsWith(full, CountryCode) then
      assert ("+" + full)[4..] == full[3..];
      Ok("+" + full)
    else Fail(PhoneInvalid)
  }

  /** `normalize_phone` of users/serializers.py. */
  function NormalizePhone(phone: string): (r: Result<string, Error>)
    ensures phone == "" ==> r == Fail(PhoneRequired)
    ensures r.Ok? <==> phone != "" && AcceptedDigits(Digits(phone))
    ensures r.Ok? ==> ValidPhone(r.value)
    ensures r.Ok? ==> r.value[4..] == Digits(phone)[|Digits(phone)| - 9..]
  {
    DigitsOfStrip(phone);
    if phone == "" then Fail(PhoneRequired) else FromDigits(Digits(Strip(phone)))
  }

  /** The digit strings a normaliser accepts: nine local digits, or twelve
      digits that start with the country code. */
  predicate AcceptedDigits(d: string) {
    |d| == 9 || (|d| == 12 && StartsWith(d, CountryCode))
  }

  /** `CustomUserManager._normalize_phone` of users/models.py: the same
      rule, without the `strip()`. */
  function ManagerNormalizePhone(phone: string): (r: Result<string, Error>)
    ensures phone == "" ==> r == Fail(PhoneRequired)
    ensures r.Ok? ==> ValidPhone(r.value)
  {
    if phone == "" then Fail(PhoneRequired) else FromDigits(Digits(phone))
  }

  /** The two normalisers accept the same inputs and give the same results. */
  lemma NormalisersAgree(phone: string)
    ensures ManagerNormalizePhone(phone) == NormalizePhone(phone)
  {
    DigitsOfStrip(phone);
  }

  /** Inputs with the same digits normalise identically, whatever spaces,
      dashes or plus signs surround them. */
  lemma NormalizeIgnoresNonDigits(a: string, b: string)
    requires a != "" && b != ""
    requires Digits(a) == Digits(b)
    ensures NormalizePhone(a) == NormalizePhone(b)
  {
    DigitsOfStrip(a);
    DigitsOfStrip(b);
  }

  /** A stored phone is its own normal form. */
  lemma NormalizeValidPhone(p: string)
    requires ValidPhone(p)
    ensures NormalizePhone(p) == Ok(p)
  {
    var d := p[1..];
    assert AllDigits(d) by {
      forall i | 0 <= i < |d| ensures IsDigit(d[i]) {
        if i < 3 {
          assert d[i] == p[1..4][i];
        } else {
          assert d[i] == p[4..][i - 3];
        }
      }
    }
    assert p == [p[0]] + d;
    DigitsAppend([p[0]], d);
    DigitsOfDigitString(d);
    assert Digits(p) == d;
    assert d[..3] == p[1..4];
    DigitsOfStrip(p);
    assert FromDigits(d) == Ok(p);
  }

  /** Normalisation is idempotent. */
  lemma NormalizeIdempotent(phone: string)
    ensures NormalizePhone(phone).Ok? ==> NormalizePhone(NormalizePhone(phone).value) == NormalizePhone(phone)
  {
    if NormalizePhone(phone).Ok? {
      NormalizeValidPhone(NormalizePhone(phone).value);
    }
  }

  /** A Django password: hashed and checkable, or unusable (no password
      ever matches). Hashing is collision-free here, so a usable password
      is represented by its secret. */
  datatype Password = Unusable | Usable(secret: string)

  predicate CheckPassword(p: Password, raw: string) {
    p.Usable? && p.secret == raw
  }

  datatype User = User(
    phone: string,
    username: string,        // "" stands for NULL or blank
    firstName: string,
    lastName: string,
    password: Password,
    role: string,
    isStaff: bool,
    isSuperuser: bool,
    isActive: bool,
    isVerified: bool,
    verifiedAt: Option<nat>)

  type Users = Table<User>

  predicate PhoneUsed(t: Users, phone: string) {
    Any(t, (u: User) => u.phone == phone)
  }

  predicate UsernameUsed(t: Users, name: string) {
    Any(t, (u: User) => u.username == name)
  }

  /** The unique constraint on `phone_number`. */
  predicate PhoneUnique(t: Users) {
    forall j, k :: j in t.rows && k in t.rows && t.rows[j].phone == t.rows[k].phone ==> j == k
  }

  /** The username `User.save()` stores: a blank one becomes the phone. */
  function StoredUsername(u: User): (name: string)
    ensures name != "" <== u.phone != "" || u.username != ""
  {
    if u.username == "" then u.phone else u.username
  }

  /** `User.save()` of a new row; the unique columns reject a clash. */
  function SaveNew(t: Users, u: User): (r: Result<(Users, nat), Error>)
    ensures r.Ok? <==> !PhoneUsed(t, u.phone) && !UsernameUsed(t, StoredUsername(u))
    ensures r.Fail? ==> r.error == UniqueViolation
    ensures r.Ok? ==> r.value.1 !in t.rows && r.value.0.rows == t.rows[r.value.1 := u.(username := StoredUsername(u))]
  {
    if PhoneUsed(t, u.phone) || UsernameUsed(t, StoredUsername(u)) then Fail(UniqueViolation)
    else Ok(Insert(t, u.(username := StoredUsername(u))))
  }

  /** Inserting through `SaveNew` keeps phone numbers unique. */
  lemma SaveNewKeepsPhoneUnique(t: Users, u: User)
    requires PhoneUnique(t)
    ensures SaveNew(t, u).Ok? ==> PhoneUnique(SaveNew(t, u).value.0)
  {
    if SaveNew(t, u).Ok? {
      assert !PhoneUsed(t, u.phone);
      assert forall j :: j in t.rows ==> t.rows[j].phone != u.phone;
    }
  }

  /** The fields `create_user` receives besides the phone and password. A
      `None` username means the caller did not pass one. */
  datatype Extra = Extra(username: Option<string>, firstName: string, lastName: string,
                         role: string, isStaff: bool, isSuperuser: bool)

  /** The row `create_user` builds for an already normalised phone. */
  function NewUser(phone: string, password: Option<string>, extra: Extra): User {
    User(phone, if extra.username.Some? then extra.username.value else phone,
         extra.firstName, extra.lastName,
         if Truthy(password) then Usable(password.value) else Unusable,
         extra.role, extra.isStaff, extra.isSuperuser, true, false, None)
  }

  /** `CustomUserManager.create_user`. */
  function CreateUser(t: Users, phone: string, password: Option<string>, extra: Extra): (r: Result<(Users, nat), Error>)
    ensures phone == "" ==> r == Fail(PhoneRequired)
    ensures NormalizePhone(phone).Fail? ==> r == Fail(NormalizePhone(phone).error)
    ensures r.Ok? ==> r.value.1 !in t.rows && r.value.1 in r.value.0.rows
    ensures r.Ok? ==> var u := r.value.0.rows[r.value.1];
                      NormalizePhone(phone) == Ok(u.phone)
                      && (extra.username.None? ==> u.username == u.phone)
                      && (CheckPassword(u.password, password.value) <== Truthy(password))
                      && (u.password == Unusable <== !Truthy(password))
                      && u.isActive && !u.isVerified && u.verifiedAt.None?
  {
    NormalisersAgree(phone);
    match ManagerNormalizePhone(phone)
    case Fail(e) => Fail(e)
    case Ok(p) => SaveNew(t, NewUser(p, password, extra))
  }

  /** `RegisterSerializer.create` after the phone field has normalised the
      input: a registered phone is refused, otherwise a customer account is
      created with the names stripped. */
  function Register(t: Users, phoneInput: string, first: string, last: string, password: string): (r: Result<(Users, nat), Error>)
    ensures NormalizePhone(phoneInput).Fail? ==> r == Fail(PhoneInvalid)
    ensures NormalizePhone(phoneInput).Ok? && PhoneUsed(t, NormalizePhone(phoneInput).value) ==> r == Fail(PhoneTaken)
    ensures r.Ok? ==> r.value.1 in r.value.0.rows
    ensures r.Ok? ==> var u := r.value.0.rows[r.value.1];
                      u.phone == NormalizePhone(phoneInput).value
                      && u.firstName == Strip(first) && u.lastName == Strip(last)
                      && u.role == "customer" && !u.isVerified && u.isActive
                      && (password != "" ==> CheckPassword(u.password, password))
  {
    match NormalizePhone(phoneInput)
    case Fail(_) => Fail(PhoneInvalid)
    case Ok(phone) =>
      if PhoneUsed(t, phone) then Fail(PhoneTaken)
      else
        NormalizeIdempotent(phoneInput);
        CreateUser(t, phone, Some(password), Extra(None, Strip(first), Strip(last), "customer", false, false))
  }

  /** Registration keeps phone numbers unique. */
  lemma RegisterKeepsPhoneUnique(t: Users, phoneInput: string, first: string, last: string, password: string)
    requires PhoneUnique(t)
    requires Register(t, phoneInput, first, last, password).Ok?
    ensures PhoneUnique(Register(t, phoneInput, first, last, password).value.0)
  {
    var phone := NormalizePhone(phoneInput).value;
    NormalizeIdempotent(phoneInput);
    NormalisersAgree(phone);
    SaveNewKeepsPhoneUnique(t, NewUser(phone, Some(password), Extra(None, Strip(first), Strip(last), "customer", false, false)));
  }

  /** The checks `LoginSerializer.validate` makes on a normalised phone. */
  function Authenticate(t: Users, phone: string, password: string): (r: Result<nat, Error>)
    ensures r.Ok? ==> r.value in t.rows && t.rows[r.value].phone == phone
                      && CheckPassword(t.rows[r.value].password, password)
                      && t.rows[r.value].isVerified && t.rows[r.value].isActive
    ensures r.Fail? ==> r.error in {BadCredentials, NotVerified, Blocked}
    ensures r.Fail? && r.error != BadCredentials ==>
              exists k :: k in t.rows && t.rows[k].phone == phone && CheckPassword(t.rows[k].password, password)
                          && (r.error == Blocked ==> t.rows[k].isVerified)
  {
    match Newest(t, (u: User) => u.phone == phone)
    case None => Fail(BadCredentials)
    case Some(k) =>
      var u := t.rows[k];
      if !CheckPassword(u.password, password) then Fail(BadCredentials)
      else if !u.isVerified then Fail(NotVerified)
      else if !u.isActive then Fail(Blocked)
      else Ok(k)
  }

  /** `LoginSerializer.validate`: an unknown phone and a wrong password give
      the same error; then an unverified user is refused before an inactive
      one. */
  function Login(t: Users, phoneInput: string, password: string): (r: Result<nat, Error>)
    ensures NormalizePhone(phoneInput).Fail? ==> r == Fail(PhoneInvalid)
    ensures NormalizePhone(phoneInput).Ok? ==> r == Authenticate(t, NormalizePhone(phoneInput).value, password)
  {
    match NormalizePhone(phoneInput)
    case Fail(_) => Fail(PhoneInvalid)
    case Ok(phone) => Authenticate(t, phone, password)
  }

  /** With unique phones, authentication fails with the one credentials
      error exactly when no account with that phone has that password: an
      unknown phone and a wrong password are indistinguishable. */
  lemma AuthenticateCredentialsError(t: Users, phone: string, password: string)
    requires PhoneUnique(t)
    ensures Authenticate(t, phone, password) == Fail(BadCredentials) <==>
              forall k :: k in t.rows && t.rows[k].phone == phone ==> !CheckPassword(t.rows[k].password, password)
  {
  }

  /** `User.verify`. */
  function Verify(u: User, now: nat): (r: User)
    ensures r.isVerified && r.verifiedAt == Some(now)
    ensures r.(isVerified := u.isVerified, verifiedAt := u.verifiedAt) == u
  {
    u.(isVerified := true, verifiedAt := Some(now))
  }

  /** With unique phones, logging in with a stored row's phone is decided
      by that row alone, in the serializer's order. */
  lemma AuthenticateOwnRow(t: Users, k: nat, password: string)
    requires PhoneUnique(t) && k in t.rows
    ensures var u := t.rows[k];
            Authenticate(t, u.phone, password)
            == if !CheckPassword(u.password, password) then Fail(BadCredentials)
               else if !u.isVerified then Fail(NotVerified)
               else if !u.isActive then Fail(Blocked)
               else Ok(k)
  {
    var p := (u: User) => u.phone == t.rows[k].phone;
    assert Newest(t, p) == Some(k);
  }

  /** With unique phones, an active but unverified account is refused as
      unverified even with its own password, and after `verify` that
      password logs in. */
  lemma VerifyUnlocksLogin(t: Users, k: nat, password: string, now: nat)
    requires PhoneUnique(t) && k in t.rows
    requires CheckPassword(t.rows[k].password, password) && !t.rows[k].isVerified && t.rows[k].isActive
    ensures Authenticate(t, t.rows[k].phone, password) == Fail(NotVerified)
    ensures Authenticate(Put(t, k, Verify(t.rows[k], now)), t.rows[k].phone, password) == Ok(k)
  {
    AuthenticateOwnRow(t, k, password);
    var t2 := Put(t, k, Verify(t.rows[k], now));
    assert PhoneUnique(t2) by {
      forall i, j | i in t2.rows && j in t2.rows && t2.rows[i].phone == t2.rows[j].phone ensures i == j {
        assert t2.rows[i].phone == t.rows[i].phone && t2.rows[j].phone == t.rows[j].phone;
      }
    }
    AuthenticateOwnRow(t2, k, password);
  }

  /** A freshly registered account is refused as unverified, even with
      its own password, until `verify` runs; then that password logs in. */
  lemma RegisteredNeedsVerification(t: Users, phoneInput: string, first: string, last: string, password: string, now: nat)
    requires PhoneUnique(t) && password != ""
    requires Register(t, phoneInput, first, last, password).Ok?
    ensures var (t', k) := Register(t, phoneInput, first, last, password).value;
            var phone := NormalizePhone(phoneInput).value;
            && Authenticate(t', phone, password) == Fail(NotVerified)
            && Authenticate(Put(t', k, Verify(t'.rows[k], now)), phone, password) == Ok(k)
  {
    var (t', k) := Register(t, phoneInput, first, last, password).value;
    RegisterKeepsPhoneUnique(t, phoneInput, first, last, password);
    VerifyUnlocksLogin(t', k, password, now);
  }

  /** `User.deactivate`. */
  function Deactivate(u: User): (r: User)
    ensures !r.isActive && r.(isActive := u.isActive) == u
  {
    u.(isActive := false)
  }

  /** A deactivated user can no longer log in, even with the right
      password. */
  lemma DeactivatedCannotLogin(t: Users, k: nat, password: string)
    requires k in t.rows && PhoneUnique(t)
    ensures Authenticate(Put(t, k, Deactivate(t.rows[k])), t.rows[k].phone, password).Fail?
  {
    var t' := Put(t, k, Deactivate(t.rows[k]));
    forall j | j in t'.rows && t'.rows[j].phone == t.rows[k].phone
      ensures !t'.rows[j].isActive
    {
      assert t.rows[j].phone == t.rows[k].phone;
    }
  }
}
