/**
 * models/__init__.py: the four tables' records, their field defaults, and
 * the record-level operations. A record is a value; an operation that the
 * source runs as a method updating fields in place is a function returning
 * the updated record, which the store then writes back.
 */
module Models {
  import opened Wrappers
  import opened Text
  import opened Crypto

  /** OTP codes are accepted for 600 seconds after issue. */
  const OtpLifetime: int := 600

  /** The preview keeps this many characters of the raw key. */
  const PreviewLength: nat := 16

  datatype Status = Active | Inactive | Revoked

  /** The status strings stored in `api_keys.status`. */
  function StatusName(st: Status): string {
    match st
    case Active => "active"
    case Inactive => "inactive"
    case Revoked => "revoked"
  }

  /**
   * How the status handlers read their input: `raw.strip().lower()` must be
   * one of the three status names.
   */
  function ParseStatus(raw: string): (r: Option<Status>)
    ensures r.Some? ==> StatusName(r.value) == Lower(Strip(raw))
    ensures r.None? ==> forall st :: StatusName(st) != Lower(Strip(raw))
  {
    var v := Lower(Strip(raw));
    assert StatusName(Active) == "active" && StatusName(Inactive) == "inactive" && StatusName(Revoked) == "revoked";
    if v == "active" then Some(Active)
    else if v == "inactive" then Some(Inactive)
    else if v == "revoked" then Some(Revoked)
    else None
  }

  /** Every status name is read back as that status. */
  lemma ParseStatusRoundTrip(st: Status)
    ensures ParseStatus(StatusName(st)) == Some(st)
  {
    var n := StatusName(st);
    assert !IsSpace(n[0]) && !IsSpace(n[|n| - 1]);
    LowerOfLowercase(n);
  }

  /** Padding and capitals do not matter: " Revoked\n" reads as revoked. */
  lemma ParseStatusPadded()
    ensures ParseStatus(" Revoked\n") == Some(Revoked)
  {
    StripPadded();
    LowerRevoked();
  }

  lemma StripPadded()
    ensures Strip(" Revoked\n") == "Revoked"
  {
    assert " Revoked\n" == [' '] + "Revoked" + ['\n'];
    StripOneEach(' ', "Revoked", '\n');
  }

  lemma LowerRevoked()
    ensures Lower("Revoked") == StatusName(Revoked)
  {
  }

  /** Outcome strings of `api_usage.status`. */
  datatype UsageStatus = Success | Failure | InvalidKey | Expired

  function UsageStatusName(st: UsageStatus): string {
    match st
    case Success => "success"
    case Failure => "failure"
    case InvalidKey => "invalid_key"
    case Expired => "expired"
  }

  /** A row of `users`. Absent (NULL) columns are `None`. */
  datatype User = User(
    id: nat,
    username: string,
    email: string,
    passwordHash: PasswordHash,
    otpVerified: bool,
    otpCode: Option<string>,
    otpCreatedAt: Option<int>,
    isAdmin: bool,
    createdAt: int,
    lastLogin: Option<int>)

  /** `User(username=..., email=...)` with the column defaults, after `set_password`. */
  function NewUser(id: nat, username: string, email: string, hash: PasswordHash, now: int): (u: User)
    ensures u.id == id && u.username == username && u.email == email && u.passwordHash == hash
    ensures !u.otpVerified && !u.isAdmin
    ensures u.otpCode.None? && u.otpCreatedAt.None? && u.lastLogin.None? && u.createdAt == now
  {
    User(id, username, email, hash, false, None, None, false, now, None)
  }

  /** `user.set_otp(code)` at time `now`: replaces any earlier code and timestamp. */
  function SetOtp(u: User, code: string, now: int): (r: User)
    ensures r.otpCode == Some(code) && r.otpCreatedAt == Some(now)
    ensures r.(otpCode := u.otpCode, otpCreatedAt := u.otpCreatedAt) == u
  {
    u.(otpCode := Some(code), otpCreatedAt := Some(now))
  }

  /** `user.otp_code = None; user.otp_created_at = None`, as the handlers consume a code. */
  function ClearOtp(u: User): (r: User)
    ensures r.otpCode.None? && r.otpCreatedAt.None?
    ensures r.(otpCode := u.otpCode, otpCreatedAt := u.otpCreatedAt) == u
  {
    u.(otpCode := None, otpCreatedAt := None)
  }

  /**
   * `user.verify_otp(code)` at time `now`. A missing or empty code or a
   * missing timestamp fails; more than 600 seconds after issue fails;
   * otherwise the codes are compared. It only reads the record.
   */
  predicate VerifyOtp(u: User, code: string, now: int)
    ensures VerifyOtp(u, code, now) ==>
      && code != "" && u.otpCode == Some(code)
      && u.otpCreatedAt.Some? && now - u.otpCreatedAt.value <= OtpLifetime
  {
    if u.otpCode.None? || u.otpCode.value == "" || u.otpCreatedAt.None? then false
    else if now - u.otpCreatedAt.value > OtpLifetime then false
    else u.otpCode.value == code
  }

  /** Verification fails closed when no code or no timestamp is stored. */
  lemma VerifyOtpFailsClosed(u: User, code: string, now: int)
    requires u.otpCode.None? || u.otpCreatedAt.None?
    ensures !VerifyOtp(u, code, now)
  {
  }

  /**
   * After `set_otp(code)` at time t, a presented code is accepted exactly
   * when it is that code and no more than 600 seconds have passed.
   */
  lemma SetOtpThenVerify(u: User, code: string, presented: string, t: int, now: int)
    requires code != ""
    ensures VerifyOtp(SetOtp(u, code, t), presented, now) <==> presented == code && now - t <= OtpLifetime
  {
  }

  /** The boundary: 600 seconds after issue is accepted, 601 is not. */
  lemma OtpExpiryBoundary(u: User, code: string, t: int)
    requires code != ""
    ensures VerifyOtp(SetOtp(u, code, t), code, t + 600)
    ensures !VerifyOtp(SetOtp(u, code, t), code, t + 601)
  {
  }

  /** A new code replaces the old one: the earlier code no longer verifies. */
  lemma SetOtpOverwrites(u: User, old_code: string, code: string, t0: int, t: int, now: int)
    requires old_code != code
    ensures !VerifyOtp(SetOtp(SetOtp(u, old_code, t0), code, t), old_code, now)
  {
  }

  /** A consumed (cleared) code never verifies again. */
  lemma ClearedOtpRejects(u: User, code: string, now: int)
    ensures !VerifyOtp(ClearOtp(u), code, now)
  {
  }

  /** A row of `api_keys`. */
  datatype ApiKey = ApiKey(
    id: nat,
    userId: nat,
    keyHash: Digest,
    keyPreview: string,
    name: string,
    status: Status,
    createdAt: int,
    expiresAt: Option<int>,
    lastUsed: Option<int>,
    usageCount: nat)

  /** `raw_key[:16] + '...'` */
  function Preview(raw: string): (p: string)
    ensures |p| <= PreviewLength + 3
    ensures |raw| >= PreviewLength ==> p == raw[..PreviewLength] + "..."
    ensures |raw| < PreviewLength ==> p == raw + "..."
  {
    raw[..if |raw| < PreviewLength then |raw| else PreviewLength] + "..."
  }

  /** `api_key.verify_key(raw)` */
  predicate VerifyKey(k: ApiKey, raw: string)
    ensures VerifyKey(k, raw) ==> forall other :: Sha256Hex(other) == k.keyHash ==> other == raw
  {
    k.keyHash == Sha256Hex(raw)
  }

  /** `api_key.set_key_hash(raw)`: stores the digest and the preview, nothing else. */
  function SetKeyHash(k: ApiKey, raw: string): (r: ApiKey)
    ensures r.keyPreview == Preview(raw)
    ensures r.(keyHash := k.keyHash, keyPreview := k.keyPreview) == k
  {
    k.(keyHash := Sha256Hex(raw), keyPreview := Preview(raw))
  }

  /** After `set_key_hash(raw)` the key verifies `raw` and no other string. */
  lemma SetKeyHashVerifies(k: ApiKey, raw: string, other: string)
    ensures VerifyKey(SetKeyHash(k, raw), raw)
    ensures VerifyKey(SetKeyHash(k, raw), other) <==> other == raw
  {
  }

  /**
   * `ApiKey(user_id=..., name=..., expires_at=...)` with the column defaults
   * (status 'active', usage_count 0, no last use), after `set_key_hash(raw)`.
   */
  function NewApiKey(id: nat, userId: nat, name: string, expiresAt: Option<int>, raw: string, now: int): (k: ApiKey)
    ensures k.id == id && k.userId == userId && k.name == name && k.expiresAt == expiresAt
    ensures k.status == Active && k.usageCount == 0 && k.lastUsed.None? && k.createdAt == now
    ensures VerifyKey(k, raw) && k.keyPreview == Preview(raw)
  {
    ApiKey(id, userId, Sha256Hex(raw), Preview(raw), name, Active, now, expiresAt, None, 0)
  }

  /** `api_key.is_valid()` at time `now`. */
  predicate IsValid(k: ApiKey, now: int)
    ensures IsValid(k, now) ==> k.status == Active
    ensures IsValid(k, now) && k.expiresAt.Some? ==> now <= k.expiresAt.value
  {
    if k.status != Active then false
    else if k.expiresAt.Some? && now > k.expiresAt.value then false
    else true
  }

  /** A key is valid iff it is active and either never expires or has not passed its expiry. */
  lemma IsValidMeaning(k: ApiKey, now: int)
    ensures IsValid(k, now) <==> k.status == Active && (k.expiresAt.None? || now <= k.expiresAt.value)
  {
  }

  /** An active key without expiry is valid at every time; one past its expiry is not. */
  lemma ExpiryExamples(k: ApiKey, now: int)
    requires k.status == Active
    ensures k.expiresAt.None? ==> IsValid(k, now)
    ensures k.expiresAt.Some? && k.expiresAt.value < now ==> !IsValid(k, now)
  {
  }

  /** The effect of `record_usage` on the key: one more use, last used now. */
  function Touched(k: ApiKey, now: int): (r: ApiKey)
    ensures r.usageCount == k.usageCount + 1 && r.lastUsed == Some(now)
    ensures r.(usageCount := k.usageCount, lastUsed := k.lastUsed) == k
  {
    k.(usageCount := k.usageCount + 1, lastUsed := Some(now))
  }

  /** A row of `api_usage`. */
  datatype ApiUsage = ApiUsage(
    id: nat,
    keyId: nat,
    endpoint: string,
    timestamp: int,
    status: UsageStatus,
    ipAddress: Option<string>,
    userAgent: Option<string>)

  /** A row of `login_history`. */
  datatype LoginHistory = LoginHistory(
    id: nat,
    userId: nat,
    timestamp: int,
    ipAddress: string,
    userAgent: Option<string>,
    success: bool)
}
