/**
 * routes/auth.py: registration, the e-mail one-time-password flows, login
 * and the account changes. Form fields default to "" when absent; the
 * `user_id` field is `None` when absent or empty. Whether an e-mail was
 * delivered is a parameter (`mailSent`), and a handler's `sent` result is
 * the code it handed to the mailer.
 */
module AuthRoutes {
  import opened Wrappers
  import opened Text
  import opened Crypto
  import opened Http
  import opened Helpers
  import Models
  import opened Db

  type User = Models.User

  predicate IsAsciiLetter(c: char) { 'a' <= c <= 'z' || 'A' <= c <= 'Z' }
  predicate IsAsciiAlnum(c: char) { IsAsciiLetter(c) || IsDigit(c) }
  /** `[a-zA-Z0-9._%+-]` */
  predicate IsLocalChar(c: char) { IsAsciiAlnum(c) || c == '.' || c == '_' || c == '%' || c == '+' || c == '-' }
  /** `[a-zA-Z0-9.-]` */
  predicate IsDomainChar(c: char) { IsAsciiAlnum(c) || c == '.' || c == '-' }

  /**
   * `re.match(r'^[a-zA-Z0-9._%+-]+@[a-zA-Z0-9.-]+\.[a-zA-Z]{2,}$', e)` on a
   * stripped string (so `$` is the end of `e`): a non-empty local part, '@',
   * a non-empty domain part, a '.', and at least two letters to the end.
   */
  predicate EmailFormatOk(e: string)
    ensures EmailFormatOk(e) ==> 6 <= |e| && forall i :: 0 <= i < |e| ==> !IsSpace(e[i])
  {
    exists at, dot ::
      && 0 < at && at + 1 < dot && dot + 3 <= |e|
      && e[at] == '@' && e[dot] == '.'
      && (forall i :: 0 <= i < at ==> IsLocalChar(e[i]))
      && (forall i :: at < i < dot ==> IsDomainChar(e[i]))
      && (forall i :: dot < i < |e| ==> IsAsciiLetter(e[i]))
  }

  /** A plain address with a dotted domain is accepted. */
  lemma EmailAccepted()
    ensures EmailFormatOk("bob@mail.example.org")
  {
    var e := "bob@mail.example.org";
    assert e[3] == '@' && e[16] == '.';
    assert forall i :: 0 <= i < 3 ==> IsLocalChar(e[i]);
    assert forall i :: 3 < i < 16 ==> IsDomainChar(e[i]);
    assert forall i :: 16 < i < |e| ==> IsAsciiLetter(e[i]);
  }

  /** A one-letter top-level domain is refused. */
  lemma EmailShortTopLevelRefused()
    ensures !EmailFormatOk("bob@mail.c")
  {
    var e := "bob@mail.c";
    assert forall k :: 0 <= k < |e| - 2 ==> e[k] != '.';
  }

  /** A space in the local part is refused. */
  lemma EmailSpaceRefused()
    ensures !EmailFormatOk("b b@c.de")
  {
    var e := "b b@c.de";
    forall at, dot | 0 < at && at + 1 < dot && dot + 3 <= |e| && e[at] == '@' && e[dot] == '.'
      ensures !IsLocalChar(e[1]) && 1 < at
    {
      assert at == 3;
    }
  }

  const MsgAllRequired := "All fields are required"
  const MsgShortUsername := "Username must be at least 3 characters long"
  const MsgBadEmail := "Invalid email format"
  const MsgMailFailed := "Failed to send verification email"
  const MsgInvalidUser := "Invalid user"
  const MsgAlreadyVerified := "Email already verified"
  const MsgBadOtp := "Invalid or expired OTP code"
  const MsgBadLogin := "Invalid username or password"
  const MsgResetSent := "If the email exists, a reset code has been sent"

  /**
   * The checks of `register` that need no database, in the source's order:
   * all fields present, a username of at least 3 characters, the e-mail
   * format, then the password strength rules. `None` means all passed.
   */
  function RegisterCheck(username: string, email: string, password: string): (r: Option<string>)
    ensures r.None? <==>
      && username != "" && email != "" && password != ""
      && |username| >= 3 && EmailFormatOk(email) && ValidatePasswordStrength(password).ok
    ensures username == "" || email == "" || password == "" ==> r == Some(MsgAllRequired)
  {
    if username == "" || email == "" || password == "" then Some(MsgAllRequired)
    else if |username| < 3 then Some(MsgShortUsername)
    else if !EmailFormatOk(email) then Some(MsgBadEmail)
    else if !ValidatePasswordStrength(password).ok then Some(ValidatePasswordStrength(password).message)
    else None
  }

  /**
   * The record `register` stores: the column defaults with the pending OTP;
   * the first account of an empty database is an admin and already verified.
   */
  function Registered(id: nat, username: string, email: string, hash: PasswordHash, code: string, now: int, first: bool)
    : (u: User)
    ensures u.id == id && u.username == username && u.email == email && u.passwordHash == hash
    ensures u.isAdmin == first && u.otpVerified == first
    ensures u.otpCode == Some(code) && u.otpCreatedAt == Some(now) && u.lastLogin.None?
  {
    var u := Models.SetOtp(Models.NewUser(id, username, email, hash, now), code, now);
    if first then u.(isAdmin := true, otpVerified := true) else u
  }

  /**
   * `register` (POST). The username is stripped, the e-mail stripped and
   * lower-cased. Nothing is stored unless every check passes and both the
   * username and the e-mail are unused. Otherwise one account is added;
   * a failed verification mail to a non-admin is a 500 after the commit.
   */
  method Register(s: Store, rawUsername: string, rawEmail: string, password: string, mailSent: bool, now: int)
    returns (reply: Reply, created: Option<nat>, otp: Option<string>, requiresOtp: bool)
    requires s.Valid()
    modifies s`users, s`nextUserId
    ensures s.Valid()
    ensures RegisterCheck(Strip(rawUsername), Lower(Strip(rawEmail)), password).Some? ==>
      reply == Answer(400, RegisterCheck(Strip(rawUsername), Lower(Strip(rawEmail)), password).value)
      && created.None? && unchanged(s)
    ensures (exists x :: x in old(s.users) && old(s.users)[x].username == Strip(rawUsername)) ==>
      reply.code == 400 && created.None? && unchanged(s)
    ensures (exists x :: x in old(s.users) && old(s.users)[x].email == Lower(Strip(rawEmail))) ==>
      reply.code == 400 && created.None? && unchanged(s)
    ensures reply.code == 400 ==> created.None? && otp.None? && unchanged(s)
    ensures reply.code == 400 <==>
      || RegisterCheck(Strip(rawUsername), Lower(Strip(rawEmail)), password).Some?
      || (exists x :: x in old(s.users) && old(s.users)[x].username == Strip(rawUsername))
      || (exists x :: x in old(s.users) && old(s.users)[x].email == Lower(Strip(rawEmail)))
    ensures reply.code != 400 ==>
      var id := old(s.nextUserId);
      var first := old(|s.users|) == 0;
      && RegisterCheck(Strip(rawUsername), Lower(Strip(rawEmail)), password).None?
      && id in s.users && otp.Some? && IsOtpShape(otp.value)
      && s.users == old(s.users)[id := Registered(id, Strip(rawUsername), Lower(Strip(rawEmail)),
                                                  s.users[id].passwordHash, otp.value, now, first)]
      && CheckPassword(password, s.users[id].passwordHash)
      && (if !first && !mailSent then reply == Answer(500, MsgMailFailed) && created.None?
          else reply.code == 201 && created == Some(id) && requiresOtp == !first)
  {
    var username := Strip(rawUsername);
    var email := Lower(Strip(rawEmail));
    var problem := RegisterCheck(username, email, password);
    if problem.Some? {
      return Answer(400, problem.value), None, None, false;
    }
    var byName := s.FindUserByUsername(username);
    if byName.Some? {
      return Answer(400, "Username already exists"), None, None, false;
    }
    var byEmail := s.FindUserByEmail(email);
    if byEmail.Some? {
      return Answer(400, "Email already registered"), None, None, false;
    }
    assert !exists x :: x in s.users && s.users[x].username == username;
    assert !exists x :: x in s.users && s.users[x].email == email;
    LowerIdempotent(Strip(rawEmail));
    reply, created, otp, requiresOtp := CreateAccount(s, username, email, password, mailSent, now);
  }

  /**
   * The committing half of `register`, for a name and a lower-cased e-mail
   * no account uses: the account is added with a fresh code; the first
   * account is an admin and verified at once, and for any other account a
   * failed verification mail is a 500 after the commit.
   */
  method CreateAccount(s: Store, username: string, email: string, password: string, mailSent: bool, now: int)
    returns (reply: Reply, created: Option<nat>, otp: Option<string>, requiresOtp: bool)
    requires s.Valid() && Lower(email) == email
    requires forall x :: x in s.users ==> s.users[x].username != username && s.users[x].email != email
    modifies s`users, s`nextUserId
    ensures s.Valid()
    ensures reply.code != 400
    ensures
      var id := old(s.nextUserId);
      var first := old(|s.users|) == 0;
      && id in s.users && otp.Some? && IsOtpShape(otp.value)
      && s.users == old(s.users)[id := Registered(id, username, email, s.users[id].passwordHash, otp.value, now, first)]
      && CheckPassword(password, s.users[id].passwordHash)
      && (if !first && !mailSent then reply == Answer(500, MsgMailFailed) && created.None?
          else reply.code == 201 && created == Some(id) && requiresOtp == !first)
  {
    var salt := GenSalt();
    var code := GenerateOtp();
    var first := |s.users| == 0;
    var u := Registered(s.nextUserId, username, email, HashPassword(password, salt), code, now, first);
    var id := s.InsertUser(u);
    assert u.(id := id) == u;
    otp := Some(code);
    if !first && !mailSent {
      return Answer(500, MsgMailFailed), None, otp, false;
    }
    var text := if first then "Admin account created successfully!"
      else "Registration successful! Please check your email for verification code.";
    reply, created, requiresOtp := Answer(201, text), Some(id), !first;
  }

  /**
   * `verify_otp` (the route). An already verified account is refused; a
   * code that `User.verify_otp` accepts marks the account verified and
   * consumes the code; any other outcome changes nothing.
   */
  method VerifyOtp(s: Store, userId: Option<nat>, rawCode: string, now: int) returns (reply: Reply)
    requires s.Valid()
    modifies s`users
    ensures s.Valid()
    ensures reply.code != 200 ==> unchanged(s)
    ensures userId.None? || Strip(rawCode) == "" ==> reply == Answer(400, "User ID and OTP code are required")
    ensures userId.Some? && Strip(rawCode) != "" && userId.value !in old(s.users) ==> reply == Answer(400, MsgInvalidUser)
    ensures userId.Some? && Strip(rawCode) != "" && userId.value in old(s.users) ==>
      var u := old(s.users)[userId.value];
      && (u.otpVerified ==> reply == Answer(400, MsgAlreadyVerified))
      && (!u.otpVerified && !Models.VerifyOtp(u, Strip(rawCode), now) ==> reply == Answer(400, MsgBadOtp))
      && (!u.otpVerified && Models.VerifyOtp(u, Strip(rawCode), now) ==>
            && reply == Answer(200, "Email verified successfully!")
            && s.users == old(s.users)[userId.value := Models.ClearOtp(u).(otpVerified := true)])
  {
    var code := Strip(rawCode);
    if userId.None? || code == "" {
      return Answer(400, "User ID and OTP code are required");
    }
    if userId.value !in s.users {
      return Answer(400, MsgInvalidUser);
    }
    var u := s.users[userId.value];
    if u.otpVerified {
      return Answer(400, MsgAlreadyVerified);
    }
    if !Models.VerifyOtp(u, code, now) {
      return Answer(400, MsgBadOtp);
    }
    s.PutUser(Models.ClearOtp(u).(otpVerified := true));
    reply := Answer(200, "Email verified successfully!");
  }

  /**
   * `resend_otp`: for an existing, unverified account, a fresh code replaces
   * the pending one (committed before the mail is sent).
   */
  method ResendOtp(s: Store, userId: Option<nat>, mailSent: bool, now: int) returns (reply: Reply, sent: Option<string>)
    requires s.Valid()
    modifies s`users
    ensures s.Valid()
    ensures userId.None? ==> reply == Answer(400, "User ID is required") && unchanged(s)
    ensures userId.Some? && userId.value !in old(s.users) ==> reply == Answer(400, MsgInvalidUser) && unchanged(s)
    ensures userId.Some? && userId.value in old(s.users) && old(s.users)[userId.value].otpVerified ==>
      reply == Answer(400, MsgAlreadyVerified) && unchanged(s)
    ensures reply.code == 400 ==> sent.None? && unchanged(s)
    ensures reply.code != 400 <==>
      userId.Some? && userId.value in old(s.users) && !old(s.users)[userId.value].otpVerified
    ensures reply.code != 400 ==>
      && userId.Some? && userId.value in old(s.users) && !old(s.users)[userId.value].otpVerified
      && sent.Some? && IsOtpShape(sent.value)
      && s.users == old(s.users)[userId.value := Models.SetOtp(old(s.users)[userId.value], sent.value, now)]
      && reply == (if mailSent then Answer(200, "New OTP sent to your email") else Answer(500, MsgMailFailed))
  {
    if userId.None? {
      return Answer(400, "User ID is required"), None;
    }
    if userId.value !in s.users {
      return Answer(400, MsgInvalidUser), None;
    }
    var u := s.users[userId.value];
    if u.otpVerified {
      return Answer(400, MsgAlreadyVerified), None;
    }
    var code := GenerateOtp();
    s.PutUser(Models.SetOtp(u, code, now));
    sent := Some(code);
    reply := if mailSent then Answer(200, "New OTP sent to your email") else Answer(500, MsgMailFailed);
  }

  /**
   * `login` (POST). The stripped name is matched against usernames and
   * e-mails. A correct password on a verified account writes one
   * successful history row and sets the last login; on an unverified
   * account it is a 403 that writes nothing. A wrong password writes one
   * failed row for the matched account, an unknown name writes none, and
   * both answer with the same 401. `matched` is the account the query found.
   */
  method Login(s: Store, rawUsername: string, password: string, req: Request, now: int)
    returns (reply: Reply, ghost matched: Option<nat>)
    requires s.Valid()
    modifies s`users, s`logins, s`nextLoginId
    ensures s.Valid()
    ensures Strip(rawUsername) == "" || password == "" ==>
      reply == Answer(400, "Username and password are required") && unchanged(s)
    ensures Strip(rawUsername) != "" && password != "" && matched.None? ==>
      && (forall x :: x in old(s.users) ==> old(s.users)[x].username != Strip(rawUsername) && old(s.users)[x].email != Strip(rawUsername))
      && reply == Answer(401, MsgBadLogin) && unchanged(s)
    ensures matched.Some? ==> matched.value in old(s.users)
    ensures matched.Some? ==>
      var id := matched.value;
      var u := old(s.users)[id];
      var row := old(s.nextLoginId);
      && Strip(rawUsername) != "" && password != ""
      && id in old(s.users) && (u.username == Strip(rawUsername) || u.email == Strip(rawUsername))
      && (!CheckPassword(password, u.passwordHash) ==>
            && reply == Answer(401, MsgBadLogin) && s.users == old(s.users)
            && s.logins == old(s.logins)[row := Models.LoginHistory(row, id, now, GetClientIp(req), req.userAgent, false)])
      && (CheckPassword(password, u.passwordHash) && !u.otpVerified ==>
            reply == Answer(403, "Please verify your email first") && unchanged(s))
      && (CheckPassword(password, u.passwordHash) && u.otpVerified ==>
            && reply == Answer(200, "Login successful!")
            && s.users == old(s.users)[id := u.(lastLogin := Some(now))]
            && s.logins == old(s.logins)[row := Models.LoginHistory(row, id, now, GetClientIp(req), req.userAgent, true)])
  {
    matched := None;
    var name := Strip(rawUsername);
    if name == "" || password == "" {
      return Answer(400, "Username and password are required"), matched;
    }
    var found := s.FindUserByLogin(name);
    matched := found;
    var ip := GetClientIp(req);
    if found.Some? && CheckPassword(password, s.users[found.value].passwordHash) {
      var u := s.users[found.value];
      if !u.otpVerified {
        return Answer(403, "Please verify your email first"), matched;
      }
      var row := s.AddLogin(u.id, now, ip, req.userAgent, true);
      s.PutUser(u.(lastLogin := Some(now)));
      return Answer(200, "Login successful!"), matched;
    }
    if found.Some? {
      var row := s.AddLogin(found.value, now, ip, req.userAgent, false);
    }
    reply := Answer(401, MsgBadLogin);
  }

  /**
   * `change_password` for the logged-in account `userId`: all three fields,
   * matching new passwords, the right current password and a strong new
   * one; afterwards the new password is accepted, and so is any password
   * with the same first 72 bytes (only it, when it is shorter).
   */
  method ChangePassword(s: Store, userId: nat, current: string, newPassword: string, confirm: string)
    returns (reply: Reply)
    requires s.Valid() && userId in s.users
    modifies s`users
    ensures s.Valid()
    ensures reply.code != 200 ==> unchanged(s)
    ensures s.users.Keys == old(s.users).Keys
    ensures current == "" || newPassword == "" || confirm == "" ==> reply == Answer(400, MsgAllRequired)
    ensures reply.code == 200 <==>
      && current != "" && newPassword != "" && confirm != "" && newPassword == confirm
      && CheckPassword(current, old(s.users)[userId].passwordHash)
      && ValidatePasswordStrength(newPassword).ok
    ensures reply.code == 200 ==>
      && reply == Answer(200, "Password changed successfully!")
      && s.users == old(s.users)[userId := old(s.users)[userId].(passwordHash := s.users[userId].passwordHash)]
      && (forall p :: CheckPassword(p, s.users[userId].passwordHash) <==> BcryptInput(p) == BcryptInput(newPassword))
      && (|Utf8(newPassword)| < BcryptMaxBytes ==>
            forall p :: CheckPassword(p, s.users[userId].passwordHash) <==> p == newPassword)
  {
    if current == "" || newPassword == "" || confirm == "" {
      return Answer(400, MsgAllRequired);
    }
    if newPassword != confirm {
      return Answer(400, "New passwords do not match");
    }
    var u := s.users[userId];
    if !CheckPassword(current, u.passwordHash) {
      return Answer(400, "Current password is incorrect");
    }
    var verdict := ValidatePasswordStrength(newPassword);
    if !verdict.ok {
      return Answer(400, verdict.message);
    }
    var salt := GenSalt();
    s.PutUser(u.(passwordHash := HashPassword(newPassword, salt)));
    forall p | |Utf8(newPassword)| < BcryptMaxBytes
      ensures CheckPassword(p, HashPassword(newPassword, salt)) <==> p == newPassword
    {
      CheckPasswordExact(newPassword, p, salt);
    }
    reply := Answer(200, "Password changed successfully!");
  }

  /**
   * `update_email` for the logged-in account: a well-formed, unused
   * address and the right password replace the e-mail at once, clear the
   * verified flag and issue a fresh code (committed before the mail).
   */
  method UpdateEmail(s: Store, userId: nat, rawEmail: string, password: string, mailSent: bool, now: int)
    returns (reply: Reply, sent: Option<string>)
    requires s.Valid() && userId in s.users
    modifies s`users
    ensures s.Valid()
    ensures reply.code == 400 ==> sent.None? && unchanged(s)
    ensures reply.code != 400 <==>
      var email := Lower(Strip(rawEmail));
      && email != "" && password != "" && EmailFormatOk(email)
      && CheckPassword(password, old(s.users)[userId].passwordHash)
      && (forall x :: x in old(s.users) ==> old(s.users)[x].email != email)
    ensures reply.code != 400 ==>
      && sent.Some? && IsOtpShape(sent.value)
      && s.users == old(s.users)[userId :=
           Models.SetOtp(old(s.users)[userId], sent.value, now).(otpVerified := false, email := Lower(Strip(rawEmail)))]
      && reply == (if mailSent then Answer(200, "OTP sent to new email. Please verify to complete the change.")
                   else Answer(500, MsgMailFailed))
  {
    var email := Lower(Strip(rawEmail));
    if email == "" || password == "" {
      return Answer(400, "Email and password are required"), None;
    }
    if !EmailFormatOk(email) {
      return Answer(400, MsgBadEmail), None;
    }
    var u := s.users[userId];
    if !CheckPassword(password, u.passwordHash) {
      return Answer(400, "Password is incorrect"), None;
    }
    var taken := s.FindUserByEmail(email);
    if taken.Some? {
      return Answer(400, "Email already registered"), None;
    }
    var code := GenerateOtp();
    LowerIdempotent(Strip(rawEmail));
    s.PutUser(Models.SetOtp(u, code, now).(otpVerified := false, email := email));
    sent := Some(code);
    reply := if mailSent then Answer(200, "OTP sent to new email. Please verify to complete the change.")
      else Answer(500, MsgMailFailed);
  }

  /**
   * `forgot_password` (POST). Known and unknown addresses get the same
   * message; only a known one gets a fresh code, and only its reply carries
   * the account id.
   */
  method ForgotPassword(s: Store, rawEmail: string, now: int)
    returns (reply: Reply, revealed: Option<nat>, sent: Option<string>)
    requires s.Valid()
    modifies s`users
    ensures s.Valid()
    ensures Lower(Strip(rawEmail)) == "" ==> reply == Answer(400, "Email is required") && unchanged(s)
    ensures Lower(Strip(rawEmail)) != "" ==> reply == Answer(200, MsgResetSent)
    ensures revealed.None? ==> sent.None? && unchanged(s)
    ensures Lower(Strip(rawEmail)) != "" && (forall x :: x in old(s.users) ==> old(s.users)[x].email != Lower(Strip(rawEmail)))
      ==> revealed.None?
    ensures Lower(Strip(rawEmail)) != "" && (exists x :: x in old(s.users) && old(s.users)[x].email == Lower(Strip(rawEmail)))
      ==> revealed.Some?
    ensures revealed.Some? ==>
      && revealed.value in old(s.users) && old(s.users)[revealed.value].email == Lower(Strip(rawEmail))
      && sent.Some? && IsOtpShape(sent.value)
      && s.users == old(s.users)[revealed.value := Models.SetOtp(old(s.users)[revealed.value], sent.value, now)]
  {
    var email := Lower(Strip(rawEmail));
    if email == "" {
      return Answer(400, "Email is required"), None, None;
    }
    var found := s.FindUserByEmail(email);
    if found.None? {
      return Answer(200, MsgResetSent), None, None;
    }
    var code := GenerateOtp();
    s.PutUser(Models.SetOtp(s.users[found.value], code, now));
    reply, revealed, sent := Answer(200, MsgResetSent), found, Some(code);
  }

  /**
   * `reset_password`: all fields, matching passwords, an existing account,
   * a code that `User.verify_otp` accepts and a strong password; then the
   * password is replaced and the code consumed. The verified flag is not
   * touched. Any failure changes nothing.
   */
  method ResetPassword(s: Store, userId: Option<nat>, rawCode: string, newPassword: string, confirm: string, now: int)
    returns (reply: Reply)
    requires s.Valid()
    modifies s`users
    ensures s.Valid()
    ensures reply.code != 200 ==> unchanged(s)
    ensures s.users.Keys == old(s.users).Keys
    ensures reply.code == 200 <==>
      && userId.Some? && Strip(rawCode) != "" && newPassword != "" && confirm != "" && newPassword == confirm
      && userId.value in old(s.users)
      && Models.VerifyOtp(old(s.users)[userId.value], Strip(rawCode), now)
      && ValidatePasswordStrength(newPassword).ok
    ensures reply.code == 200 ==>
      var u := old(s.users)[userId.value];
      && reply == Answer(200, "Password reset successful!")
      && s.users == old(s.users)[userId.value := Models.ClearOtp(u).(passwordHash := s.users[userId.value].passwordHash)]
      && (forall p :: CheckPassword(p, s.users[userId.value].passwordHash) <==> BcryptInput(p) == BcryptInput(newPassword))
      && (|Utf8(newPassword)| < BcryptMaxBytes ==>
            forall p :: CheckPassword(p, s.users[userId.value].passwordHash) <==> p == newPassword)
  {
    var code := Strip(rawCode);
    if userId.None? || code == "" || newPassword == "" || confirm == "" {
      return Answer(400, MsgAllRequired);
    }
    if newPassword != confirm {
      return Answer(400, "Passwords do not match");
    }
    if userId.value !in s.users {
      return Answer(400, MsgInvalidUser);
    }
    var u := s.users[userId.value];
    if !Models.VerifyOtp(u, code, now) {
      return Answer(400, MsgBadOtp);
    }
    var verdict := ValidatePasswordStrength(newPassword);
    if !verdict.ok {
      return Answer(400, verdict.message);
    }
    var salt := GenSalt();
    s.PutUser(Models.ClearOtp(u).(passwordHash := HashPassword(newPassword, salt)));
    forall p | |Utf8(newPassword)| < BcryptMaxBytes
      ensures CheckPassword(p, HashPassword(newPassword, salt)) <==> p == newPassword
    {
      CheckPasswordExact(newPassword, p, salt);
    }
    reply := Answer(200, "Password reset successful!");
  }
}
