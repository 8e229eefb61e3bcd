# API key manager — a verified model

The system is a Flask web application that issues and polices API keys.
Users register with a username, an e-mail address and a password. They
confirm the address with a six-digit one-time code (OTP) that is valid for
ten minutes. Once logged in, they create up to ten long random API keys.
Only the SHA-256 digest of a key is stored, together with a 16-character
preview. Keys can be set active, inactive or revoked, and can be renamed,
given a new expiry or regenerated. A decorator guards the API: it looks a
presented `X-API-Key` up by its digest, refuses missing, unknown,
non-active or expired keys, and writes one usage row for every key it finds.
Administrators can flip the admin flag of any account but their own, flip
the verified flag of any account (their own included), set any key's status and page through users, keys and activity with capped page
sizes.

The model is written in Dafny, one module per source file:

- `Models` (models.dfy) holds the four tables' records and the record-level
  operations: OTP issue and check, key hashing, validity and usage counting.
- `Db` (db.dfy) holds the `Store` class. It is the database: the four tables
  as maps keyed by primary key, the id counters, and the unique-column
  invariants in `Store.Valid()`.
- `Helpers`, `Decorators`, `ApiKeyRoutes`, `AuthRoutes` and `AdminRoutes`
  (helpers.dfy, decorators.dfy, api_keys.dfy, auth.dfy, admin.dfy) hold the
  utility functions, the gates and the request handlers. A handler is a
  method on a `Store`. Its `modifies` clause names the tables it may write,
  and its `ensures` clauses give the reply and the new tables for every
  branch of the source.
- `Text`, `Crypto`, `Http` and `Wrappers` hold the string operations the
  handlers use (`strip`, `lower`, `int`, `str`), the hash functions, the
  request and reply shapes, and `Option`/`Result`.
- `Scenarios` (scenarios.dfy) states consequences that span several requests.

Time is a whole number of seconds. Randomness (key characters, OTP digits,
bcrypt salts) is a nondeterministic choice constrained only by what the
source guarantees. Whether an e-mail was delivered is a parameter
(`mailSent`).

### Behaviour worth noting

- OTPs are drawn from 100000–999999 (`utils/helpers.py:16-18`), so a code
  never starts with a zero and is never zero-padded.
- The password-strength check tests the length first, so `"short1"` reports
  the length rule rather than the missing upper-case letter
  (`utils/helpers.py:175-176`).
- Updating a key with an absent or empty expiry clears its expiry
  (`routes/api_keys.py:212-213`); there is no way to keep the old expiry
  while renaming.
- Regenerating looks only at the key's current status
  (`routes/api_keys.py:162-163`). A revoked key that an administrator sets
  active again can be regenerated (`Scenarios.RevokeReactivateRegenerate`),
  so revocation is not terminal.
- The ten-key quota counts the user's keys of every status, revoked ones
  included (`routes/api_keys.py:35-37`), so revoking a key does not free a
  slot.
- An expired key keeps the status `active`; the decorator refuses it with
  "API key is active" (`utils/decorators.py:46-49`).
- `forgot_password` sends the same message for known and unknown addresses,
  but only a known address's reply carries its `user_id`
  (`routes/auth.py:287-296`), so the reply tells whether an account exists.
- bcrypt reads at most the first 72 bytes of the UTF-8 password
  (`models/__init__.py:28-34`, with bcrypt releases before 5.0): two
  passwords that agree on their first 72 bytes check against each other's
  hash (`Crypto.LongPasswordTruncated`).
- `register` commits the new account before it sends the verification
  mail; a failed mail answers 500, yet the account exists
  (`routes/auth.py:58-71`).

## Model

| member | source | states |
|---|---|---|
| Text.Strip | routes/auth.py:16-18 | `str.strip()`: the result is a contiguous slice of the input with only whitespace before and after it, has no whitespace at either end, is empty exactly when the input is all whitespace, and is the input itself when the input already has none |
| Text.StripIdempotent | routes/api_keys.py:19 | stripping twice is stripping once |
| Text.Lower | routes/auth.py:17 | `str.lower()` keeps the length and lower-cases character by character |
| Text.LowerIdempotent | routes/auth.py:17 | a lower-cased e-mail is unchanged by lower-casing again, so stored addresses compare with freshly normalised ones |
| Text.DecimalString | utils/helpers.py:18 | `str(n)`: non-empty, all digits, and a leading zero only for 0 |
| Text.DecimalRoundTrip | utils/helpers.py:18 | reading the digits of `str(n)` gives back n |
| Text.ParseIntOfDecimal | routes/api_keys.py:25 | `int(str(n)) == n` for up to 4300 digits; a longer digit string is refused |
| Text.ParseInt | routes/api_keys.py:25 | `int(s)` succeeds iff, after one optional sign, the string is 1 to 4300 ASCII digits; the value is those digits' value, negated after a '-' |
| Text.ZeroPadFields | utils/helpers.py:193 | a zero-padded field of width w has exactly w digits and reads back as the number |
| Crypto.Sha256Injective | models/__init__.py:84 | two strings have the same SHA-256 hex digest iff they are equal (the collision-resistance the design relies on) |
| Crypto.GenSalt | models/__init__.py:30 | a salt is drawn from a bounded range |
| Crypto.CheckPasswordExact | models/__init__.py:28-34 | `check_password` accepts the password `set_password` hashed, whatever the salt; for a password under 72 UTF-8 bytes it accepts that password and no other |
| Crypto.CharUtf8 | models/__init__.py:30 | a character encodes to 1–4 bytes, each 0–255, with the lead byte announcing the length |
| Crypto.CharUtf8Decodes | models/__init__.py:30 | decoding a character's UTF-8 bytes gives back the character |
| Crypto.Utf8 | models/__init__.py:30 | `password.encode('utf-8')`: every byte is 0–255 and there are one to four bytes per character |
| Crypto.Utf8Append | models/__init__.py:30 | the encoding of a concatenation is the concatenation of the encodings |
| Crypto.Utf8Injective | models/__init__.py:30-34 | two strings with the same UTF-8 bytes are equal |
| Crypto.BcryptInput | models/__init__.py:30-34 | bcrypt reads at most 72 bytes: the whole encoding when it is no longer, else its first 72 bytes |
| Crypto.LongPasswordTruncated | models/__init__.py:28-34 | a password of 72 or more bytes checks, whatever is appended to it |
| Helpers.KeyAlphabetContents | utils/helpers.py:12 | the alphabet has 64 symbols; a character is in it iff it is an ASCII letter, a digit, `-` or `_` |
| Helpers.GenerateSecureApiKey | utils/helpers.py:9-14 | the key has the requested length and every character is from the alphabet |
| Helpers.GenerateOtp | utils/helpers.py:16-18 | the code is six digits with a non-zero first digit, and its value is between 100000 and 999999 |
| Helpers.VerifyOwnHash | utils/helpers.py:20-26 | `verify_api_key_hash` accepts a key against its own digest and rejects every other key |
| Helpers.HashApiKey | utils/helpers.py:20-22 | the digest identifies the key: a string has this digest iff it is the key |
| Helpers.VerifyApiKeyHash | utils/helpers.py:24-26 | a digest that verifies a key verifies no other |
| Helpers.ValidatePasswordStrength | utils/helpers.py:173-187 | accepted iff at least 8 characters with an upper-case letter, a lower-case letter and a digit; accepted iff the message is "Password is valid" |
| Helpers.StrengthReportsFirstFailure | utils/helpers.py:175-185 | the message names the first failing rule in the order length, upper, lower, digit |
| Helpers.StrengthExamples | utils/helpers.py:175-187 | "short1" reports the length rule, "longenough1" the upper-case rule, "LongEnough1" passes |
| Helpers.TimeAgo | utils/helpers.py:195-197 | "Never" exactly for a missing time |
| Helpers.TimeAgoPast | utils/helpers.py:199-211 | for a past time: whole days when at least a day, else hours above 3600 s, minutes above 60 s, else "Just now" |
| Helpers.TimeAgoOneHour | utils/helpers.py:205-210 | exactly one hour ago reads "60 minutes ago", because the hour branch needs more than 3600 s |
| Helpers.TimeAgoFuture | utils/helpers.py:199-207 | a time less than 23 hours ahead has a difference of -1 day, and it is reported in hours of the wrapped seconds |
| Helpers.FormatDatetime | utils/helpers.py:189-192 | "Never" exactly for a missing date |
| Helpers.FormatDatetimeFields | utils/helpers.py:193 | `%Y-%m-%d %H:%M:%S` gives 19 characters with the separators in place and each field reading back as the date's component |
| Helpers.GetClientIp | utils/helpers.py:166-171 | the forwarded-for header when present, else the peer address |
| Models.ParseStatus | routes/api_keys.py:92-95 | a status is read iff the stripped, lower-cased input is one of the three status names, and it is that status |
| Models.ParseStatusRoundTrip | models/__init__.py:72 | every stored status name reads back as its status |
| Models.ParseStatusPadded | routes/api_keys.py:92 | " Revoked\n" reads as revoked |
| Models.NewUser | models/__init__.py:10-22 | a new user has the given identity and hash, is neither verified nor admin, and has no OTP and no last login |
| Models.SetOtp | models/__init__.py:36-39 | `set_otp` stores the code and the time and changes nothing else |
| Models.ClearOtp | routes/auth.py:91-92 | consuming a code clears the code and its time and changes nothing else |
| Models.VerifyOtpFailsClosed | models/__init__.py:41-44 | with no stored code or time, no code verifies |
| Models.SetOtpThenVerify | models/__init__.py:36-51 | after `set_otp(c)` at t, a code verifies iff it is c and at most 600 s have passed |
| Models.OtpExpiryBoundary | models/__init__.py:46-49 | a code verifies 600 s after issue and not 601 s after |
| Models.SetOtpOverwrites | models/__init__.py:36-39 | a newer code replaces the old one, which then never verifies |
| Models.ClearedOtpRejects | routes/auth.py:89-92 | a consumed code never verifies again |
| Models.VerifyOtp | models/__init__.py:41-51 | a code verifies only if it is non-empty, equals the stored code, and a stored issue time lies at most 600 s back |
| Models.Preview | models/__init__.py:85 | the preview is the first 16 characters of the key followed by "..." |
| Models.SetKeyHash | models/__init__.py:81-85 | `set_key_hash` stores the digest and the preview and changes nothing else |
| Models.SetKeyHashVerifies | models/__init__.py:81-90 | after `set_key_hash(raw)`, `verify_key` accepts raw and no other string |
| Models.VerifyKey | models/__init__.py:87-90 | a key that verifies raw verifies no other string |
| Models.IsValid | models/__init__.py:92-100 | a valid key is active, and not past its expiry when it has one |
| Models.NewApiKey | models/__init__.py:67-76 | a new key has the column defaults (active, zero uses, never used) and verifies its raw key |
| Models.IsValidMeaning | models/__init__.py:92-100 | `is_valid` iff active and either without expiry or not past it |
| Models.ExpiryExamples | models/__init__.py:92-100 | an active key without expiry is always valid; an active key past its expiry is not |
| Models.Touched | models/__init__.py:102-105 | `record_usage` adds one use and sets the last use to now, changing nothing else on the key |
| Db.Store.constructor | models/__init__.py:8-166 | an empty database satisfies the unique-column invariants |
| Db.Store.FindUserByUsername | routes/auth.py:39 | finds the user with that username, or reports that none has it |
| Db.Store.FindUserByEmail | routes/auth.py:42 | finds the user with that e-mail, or reports that none has it |
| Db.Store.FindUserByLogin | routes/auth.py:139-141 | finds a user whose username or e-mail is the login, or reports that none matches |
| Db.Store.KeyWithDigestOf | models/__init__.py:69 | the unique digest column: a stored key is the one key with its digest |
| Db.Store.FindKeyByHash | utils/decorators.py:25 | finds the key with that digest, or reports that none has it |
| Db.Store.OwnedKey | routes/api_keys.py:77 | `filter_by(id, user_id)`: the key when it exists and belongs to that user, else nothing |
| Db.Store.KeyCount | routes/api_keys.py:35 | the count of a user's keys, of any status, is zero iff no key belongs to them |
| Db.Store.NewestUsageOf | utils/decorators.py:58-60 | the usage row of that key with the largest id, or none when the key has no rows |
| Db.Store.InsertUser | routes/auth.py:58-59 | adds the user under the next id and keeps the unique columns unique |
| Db.Store.PutUser | routes/auth.py:91-93 | writes back one user and keeps the unique columns unique |
| Db.Store.InsertKey | routes/api_keys.py:50-51 | adds the key under the next id; the owner's key count grows by one |
| Db.Store.PutKey | routes/api_keys.py:97-98 | writes back one key; no user's key count changes |
| Db.Store.AddUsage | utils/decorators.py:36-44 | appends one usage row under the next id |
| Db.Store.RecordUsage | models/__init__.py:102-113 | counts the use on the key and appends a usage row without client details |
| Db.Store.SetUsageClient | utils/decorators.py:62-64 | sets the address and user agent on one usage row |
| Db.Store.AddLogin | routes/auth.py:152-158 | appends one login-history row under the next id |
| Decorators.EndpointOf | utils/decorators.py:38 | the route name, or the path when there is none |
| Decorators.RejectedKey | utils/decorators.py:46-49 | a refused key gets 401 "Invalid API key", and the detail names the key's status so that it reads back as that status |
| Decorators.RejectedActiveKey | utils/decorators.py:46-49 | the refusal of an expired but active key says "API key is active" |
| Decorators.RequireApiKey | utils/decorators.py:8-71 | a missing or unknown key is refused and nothing is written; a found key that is not valid is refused and one `invalid_key` row is written; a valid key is admitted, its use counted, and one `success` row with the client details is written |
| Decorators.Admit | utils/decorators.py:51-66 | the row `record_usage` adds is the key's newest, so the client details land on that row |
| Decorators.RequireAdmin | utils/decorators.py:75-87 | proceeds iff a user is logged in and is an admin; 401 when anonymous, 403 otherwise |
| Decorators.RequireVerifiedUser | utils/decorators.py:89-100 | proceeds iff a user is logged in and verified; 401 when anonymous, 403 otherwise |
| ApiKeyRoutes.ParseExpiry | routes/api_keys.py:22-32 | no expiry exactly for the empty string; a non-number gives the "must be a number" error, a value of 0 or below the "positive" error, above 365 the "cannot exceed" error, and 1–365 an expiry that many days after now |
| ApiKeyRoutes.ParseExpiryDecimal | routes/api_keys.py:24-32 | 0 days is refused as not positive, 1–365 days give now plus that many days, above 365 is refused as too many, and a day count of more than 4300 digits is refused as not a number |
| ApiKeyRoutes.ParseExpiryExamples | routes/api_keys.py:24-32 | "-3" is not positive, "+30" is 30 days, "soon" and "3.5" are not numbers |
| ApiKeyRoutes.ParseExpiryOverlong | routes/api_keys.py:24-26 | a day count of more than 4300 digits is refused as not a number |
| ApiKeyRoutes.KeyName | routes/api_keys.py:45 | the given name, or "API Key n+1" after n existing keys |
| ApiKeyRoutes.GenerateKey | routes/api_keys.py:13-62 | a bad expiry or a full quota is refused with 400 and nothing written; otherwise the reply is 500 with nothing written exactly when the drawn key's digest is already stored, and 201 otherwise, with one active key added under the parsed expiry and the drawn 128-character key returned; that key verifies against the stored digest and the owner's key count grows by one |
| ApiKeyRoutes.GetKey | routes/api_keys.py:76-81 | returns the key iff it exists and belongs to the user, else 404 |
| ApiKeyRoutes.UpdateKeyStatus | routes/api_keys.py:86-103 | 404 for another user's key, 400 for a bad status, else only that key's status changes |
| ApiKeyRoutes.DeleteKey | routes/api_keys.py:108-117 | 404 for another user's key, else the key is kept and marked revoked |
| ApiKeyRoutes.Regenerated | routes/api_keys.py:165-170 | the regenerated key verifies the new raw key, is active with zero uses, and keeps its id, owner, name, creation time and expiry |
| ApiKeyRoutes.RegeneratedRejectsOldKey | routes/api_keys.py:165-167 | after regeneration the old raw key no longer verifies |
| ApiKeyRoutes.RegenerateKey | routes/api_keys.py:157-183 | 404 iff not the user's key, 400 iff it is revoked now, 500 with nothing written iff the drawn key's digest is stored on another key; on success only that key is replaced by its regenerated form |
| ApiKeyRoutes.ApplyUpdate | routes/api_keys.py:193-213 | fails iff the expiry fails to parse; otherwise sets the new name when one is given and always sets the parsed expiry, changing nothing else |
| ApiKeyRoutes.UpdateEmptyExpiryClears | routes/api_keys.py:202-213 | an empty expiry clears the key's expiry |
| ApiKeyRoutes.UpdateKey | routes/api_keys.py:188-220 | 404 for another user's key, 400 with nothing written for a bad expiry, else only that key is updated |
| AuthRoutes.EmailAccepted | routes/auth.py:29-31 | an ordinary address passes the e-mail pattern |
| AuthRoutes.EmailShortTopLevelRefused | routes/auth.py:29-31 | a one-letter top-level domain fails the pattern |
| AuthRoutes.EmailSpaceRefused | routes/auth.py:29-31 | a space in the local part fails the pattern |
| AuthRoutes.EmailFormatOk | routes/auth.py:29-31 | an address the pattern accepts has at least six characters and no whitespace |
| AuthRoutes.RegisterCheck | routes/auth.py:21-36 | no complaint iff all fields are present, the username has at least 3 characters, the e-mail matches the pattern and the password is strong; an empty field reports "All fields are required" |
| AuthRoutes.Registered | routes/auth.py:45-56 | the first user becomes a verified admin; every other user starts unverified, with a pending OTP |
| AuthRoutes.Register | routes/auth.py:11-71 | 400 with nothing written iff the field check fails, the username is taken or the normalised e-mail is taken; otherwise exactly one user is added under the stripped name and the lower-cased e-mail |
| AuthRoutes.CreateAccount | routes/auth.py:45-71 | always adds exactly one user, whose hash checks the password; the first user gets 201 at once, any other gets 201 when the mail is sent and 500 after the commit when it is not |
| AuthRoutes.VerifyOtp | routes/auth.py:74-97 | only a correct, unexpired code for an unverified user succeeds; it marks the user verified and consumes the code; every failure writes nothing |
| AuthRoutes.ResendOtp | routes/auth.py:100-124 | 400 with nothing written iff the user id is missing, unknown or already verified; otherwise a fresh code is stored with the current time and nothing else changes |
| AuthRoutes.Login | routes/auth.py:127-188 | an unknown name gives 401 with nothing written; a wrong password gives the same 401 and writes one failed login row; a correct password on an unverified account writes nothing; a correct password on a verified account sets the last login and writes one successful row |
| AuthRoutes.ChangePassword | routes/auth.py:199-223 | succeeds iff all fields are present, the current password checks, the two new ones match and are strong; only then the hash changes, it accepts exactly the passwords that agree with the new one on bcrypt's first 72 bytes, and exactly the new password when it is shorter |
| AuthRoutes.UpdateEmail | routes/auth.py:228-266 | a new address is taken iff it is well formed, used by no account (the caller's own current address included) and the password checks; the user becomes unverified with a fresh code |
| AuthRoutes.ForgotPassword | routes/auth.py:269-296 | an empty address gives 400; any other gets the same message, but only a known address's reply carries the account id, and exactly a known address gets a fresh code stored |
| AuthRoutes.ResetPassword | routes/auth.py:299-329 | succeeds iff the code verifies and the new passwords match and are strong; then the hash accepts the new password (exactly it when under 72 bytes) and the code is consumed |
| AdminRoutes.CappedArg | routes/admin.py:91 | `min(int arg or default, cap)`: never above the cap; the default when the argument is absent or not a number |
| AdminRoutes.ListingPerPage | routes/admin.py:91 | the user listing and the key listing (line 204) share one page size: default 20, never above 100 |
| AdminRoutes.ActivityPerPage | routes/admin.py:335 | activity per page defaults to 20 and never exceeds 50 |
| AdminRoutes.AnalyticsDays | routes/admin.py:267-268 | the analytics window defaults to 30 days and never exceeds 365 |
| AdminRoutes.CappedDecimal | routes/admin.py:91 | a numeric argument n of up to 4300 digits gives the smaller of n and the cap; a longer one gives the default |
| AdminRoutes.ListingPageCap | routes/admin.py:91-204 | for users and keys, a request for n gives the smaller of n and 100 |
| AdminRoutes.CapCutsLargeRequest | routes/admin.py:91 | " 500 " gives 100 users per page |
| AdminRoutes.ActivityPageCap | routes/admin.py:335 | a request for n activity rows gives the smaller of n and 50 |
| AdminRoutes.AnalyticsWindowCap | routes/admin.py:267-268 | a request for n days gives the smaller of n and 365 |
| AdminRoutes.CapDefaultsOnGarbage | routes/admin.py:204 | a non-numeric argument falls back to the default |
| AdminRoutes.OverlongArgDefaults | routes/admin.py:91 | an argument of more than 4300 digits falls back to the defaults: 20 users, keys or activity rows per page, 30 analytics days |
| AdminRoutes.KeyStatusFilter | routes/admin.py:205-211 | the filter applies iff the stripped argument is exactly a status name, and then it is the status `ParseStatus` reads |
| AdminRoutes.ExactNameParses | routes/admin.py:207-211 | an argument that strips to exactly a status name is read by the status updates as that same status |
| AdminRoutes.FilterIsCaseSensitive | routes/admin.py:210 | "Active" is ignored as a filter, though the status handlers accept it |
| AdminRoutes.ListedKeys | routes/admin.py:205-214 | a key is listed iff it matches the valid status filter and the owner filter |
| AdminRoutes.InvalidFilterIgnored | routes/admin.py:210-211 | an unrecognised status filter lists the same keys as no filter |
| AdminRoutes.ToggleUserAdmin | routes/admin.py:170-182 | an admin cannot change their own flag; an unknown user gives 404; otherwise only that user's admin flag flips |
| AdminRoutes.ToggleUserVerification | routes/admin.py:187-196 | an unknown user gives 404; otherwise only that user's verified flag flips |
| AdminRoutes.AdminUpdateKeyStatus | routes/admin.py:244-260 | an unknown key gives 404, a bad status 400; otherwise only that key's status changes, whoever owns it |
| Scenarios.RevokeReactivateRegenerate | routes/api_keys.py:157-183 | after delete, regenerate is refused; after an admin sets the key active, regenerate succeeds with an active key of zero uses unless the drawn key's digest is already stored on another key |
| Scenarios.ExpiredKeyReportsActive | utils/decorators.py:34-49 | a key made to expire in one day is refused two days later, with the message "API key is active" |
| Scenarios.OneDayExpiry | routes/api_keys.py:22-30 | the expiry argument "1" is one day ahead |
| Scenarios.ExpiredAfterTwoDays | models/__init__.py:92-100 | an active key expiring after one day is invalid after two |
| Scenarios.VerifyOtpTwice | routes/auth.py:86-95 | after a successful verification the same code is refused as already verified, and no code is stored |
| Scenarios.ToggleAdminTwice | routes/admin.py:170-182 | toggling an account's admin flag twice leaves every account as it was |

## Left out

- E-mail delivery (OTP mails, reset mails, login alerts, key-generated notices) is not modelled; whether a mail was sent is the `mailSent` parameter, and the code that would be mailed is returned as `sent`.
- HTML templates, flashes, redirects and the GET renders of the forms are left out; a reply is a status code and a message.
- Randomness (`secrets.choice`, `random.randint`, bcrypt salts) is a nondeterministic choice limited only by the source's ranges.
- The internals of SHA-256 and bcrypt are left out: digests are modelled as injective, and a bcrypt hash accepts exactly the passwords whose first 72 UTF-8 bytes match. This is bcrypt before release 5.0; release 5.0 and later raise an error on a password over 72 bytes, which the handlers would answer with a 500.
- Unicode case rules are left out: `lower`, `isupper`, `islower` and `isdigit` are modelled on ASCII, and `int()` does not accept underscores or non-ASCII digits. `int()` follows CPython 3.11 and later, which refuse a string of more than 4300 digits.
- Time is whole seconds: sub-second precision, the calendar conversion behind `strftime`, and time zones are left out.
- Helpers.FormatDatetimeFields: states the layout only for years from 1000 on, because `%Y` does not pad shorter years the same way on every platform.
- Concurrency is left out: the read-modify-write of `usage_count` and the window between `record_usage` and reading the newest row run as one step.
- Request JSON fields are strings or absent; non-string JSON values are left out. A JSON `user_id` of 0, which the source treats as missing, is modelled as present.
- The listing, search, statistics, analytics and dashboard views (`list_keys`, `get_key_usage`, `get_user_stats`, the admin stats, users, user details and recent-activity queries, routes/api.py, routes/dashboard.py) are left out, apart from their page-size caps and the key status filter.
- Logout and the Flask-Login session are left out: the logged-in user is a parameter.
- The one database error modelled is the unique-digest clash of a newly drawn key, a 500 with nothing written; other database failures are not modelled.
- Records are values written back to the store: aliasing between ORM objects is not modelled.
- `to_dict` bodies are left out: AdminRoutes and ApiKeyRoutes.GetKey return the record itself.
- User deletion and cascading deletes are not part of this model.
- Scenarios.ExpiredKeyReportsActive: states only the replies; the usage row the refusal writes is stated by Decorators.RequireApiKey.
