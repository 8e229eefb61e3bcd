/**
 * utils/helpers.py: secret generation, key hashing, password-strength
 * rules, display helpers and client-IP selection. Random draws are
 * nondeterministic choices within the ranges the code states.
 */
module Helpers {
  import opened Wrappers
  import opened Text
  import opened Crypto
  import opened Http

  /** The `n` consecutive characters starting at `first`. */
  function CharRange(first: char, n: nat): (r: string)
    requires first as int + n <= 0xD800
    ensures |r| == n
    ensures forall i :: 0 <= i < n ==> r[i] as int == first as int + i
  {
    seq(n, i requires 0 <= i < n => (first as int + i) as char)
  }

  /** `string.ascii_letters + string.digits + '-_'` */
  const KeyAlphabet: string := CharRange('a', 26) + CharRange('A', 26) + CharRange('0', 10) + "-_"

  predicate IsKeyChar(c: char) {
    'a' <= c <= 'z' || 'A' <= c <= 'Z' || '0' <= c <= '9' || c == '-' || c == '_'
  }

  /** The key alphabet has 64 symbols, exactly the ASCII letters, digits, '-' and '_'. */
  lemma KeyAlphabetContents(c: char)
    ensures |KeyAlphabet| == 64
    ensures c in KeyAlphabet <==> IsKeyChar(c)
  {
    var a := KeyAlphabet;
    if 'a' <= c <= 'z' {
      assert a[c as int - 'a' as int] == c;
    } else if 'A' <= c <= 'Z' {
      assert a[26 + c as int - 'A' as int] == c;
    } else if '0' <= c <= '9' {
      assert a[52 + c as int - '0' as int] == c;
    } else if c == '-' {
      assert a[62] == c;
    } else if c == '_' {
      assert a[63] == c;
    } else {
      forall i | 0 <= i < |a| ensures a[i] != c {
        if i < 26 {
          assert a[i] == CharRange('a', 26)[i];
        } else if i < 52 {
          assert a[i] == CharRange('A', 26)[i - 26];
        } else if i < 62 {
          assert a[i] == CharRange('0', 10)[i - 52];
        }
      }
    }
  }

  /** `generate_secure_api_key(length)`: `length` independent draws from the alphabet. */
  method GenerateSecureApiKey(length: nat) returns (key: string)
    ensures |key| == length
    ensures forall i :: 0 <= i < |key| ==> key[i] in KeyAlphabet
  {
    key := [];
    while |key| < length
      invariant |key| <= length
      invariant forall i :: 0 <= i < |key| ==> key[i] in KeyAlphabet
    {
      KeyAlphabetContents('a');
      var c :| c in KeyAlphabet;
      key := key + [c];
    }
  }

  /** Six decimal digits with a non-zero first digit. */
  predicate IsOtpShape(code: string) {
    |code| == 6 && AllDigits(code) && code[0] != '0'
  }

  /** `generate_otp()`: `str(random.randint(100000, 999999))`. */
  method GenerateOtp() returns (code: string)
    ensures IsOtpShape(code)
    ensures 100000 <= ParseDigits(code) <= 999999
  {
    var n :| 100000 <= n <= 999999;
    DecimalLength(n, 5);
    DecimalRoundTrip(n);
    code := DecimalString(n);
  }

  /** `hash_api_key(k)` */
  function HashApiKey(k: string): (h: Digest)
    ensures forall other :: Sha256Hex(other) == h <==> other == k
  {
    Sha256Hex(k)
  }

  /** `verify_api_key_hash(k, h)` */
  predicate VerifyApiKeyHash(k: string, h: Digest)
    ensures VerifyApiKeyHash(k, h) ==> forall other :: Sha256Hex(other) == h ==> other == k
  {
    HashApiKey(k) == h
  }

  /** A key verifies against its own hash and no other key does. */
  lemma VerifyOwnHash(k: string, other: string)
    ensures VerifyApiKeyHash(k, HashApiKey(k))
    ensures VerifyApiKeyHash(other, HashApiKey(k)) <==> other == k
  {
  }

  predicate IsUpper(c: char) { 'A' <= c <= 'Z' }
  predicate IsLower(c: char) { 'a' <= c <= 'z' }

  predicate HasUpper(p: string) { exists i :: 0 <= i < |p| && IsUpper(p[i]) }
  predicate HasLower(p: string) { exists i :: 0 <= i < |p| && IsLower(p[i]) }
  predicate HasDigit(p: string) { exists i :: 0 <= i < |p| && IsDigit(p[i]) }

  const MsgTooShort := "Password must be at least 8 characters long"
  const MsgNoUpper := "Password must contain at least one uppercase letter"
  const MsgNoLower := "Password must contain at least one lowercase letter"
  const MsgNoDigit := "Password must contain at least one number"
  const MsgStrong := "Password is valid"

  /** The `(is_valid, message)` pair `validate_password_strength` returns. */
  datatype Verdict = Verdict(ok: bool, message: string)

  /** Checks length, then uppercase, then lowercase, then digit; reports the first failure. */
  function ValidatePasswordStrength(p: string): (r: Verdict)
    ensures r.ok <==> |p| >= 8 && HasUpper(p) && HasLower(p) && HasDigit(p)
    ensures r.ok <==> r.message == MsgStrong
  {
    if |p| < 8 then Verdict(false, MsgTooShort)
    else if !HasUpper(p) then Verdict(false, MsgNoUpper)
    else if !HasLower(p) then Verdict(false, MsgNoLower)
    else if !HasDigit(p) then Verdict(false, MsgNoDigit)
    else Verdict(true, MsgStrong)
  }

  /**
   * The message names the first rule, in the order length, uppercase,
   * lowercase, digit, that the password breaks.
   */
  lemma StrengthReportsFirstFailure(p: string)
    ensures |p| < 8 ==> ValidatePasswordStrength(p).message == MsgTooShort
    ensures |p| >= 8 && !HasUpper(p) ==> ValidatePasswordStrength(p).message == MsgNoUpper
    ensures |p| >= 8 && HasUpper(p) && !HasLower(p) ==> ValidatePasswordStrength(p).message == MsgNoLower
    ensures |p| >= 8 && HasUpper(p) && HasLower(p) && !HasDigit(p) ==> ValidatePasswordStrength(p).message == MsgNoDigit
  {
  }

  /** "short1" fails on length first; "longenough1" on uppercase; "LongEnough1" passes. */
  lemma StrengthExamples()
    ensures ValidatePasswordStrength("short1") == Verdict(false, MsgTooShort)
    ensures ValidatePasswordStrength("longenough1") == Verdict(false, MsgNoUpper)
    ensures ValidatePasswordStrength("LongEnough1").ok
  {
    var p := "LongEnough1";
    assert IsUpper(p[0]) && IsLower(p[1]) && IsDigit(p[10]);
  }

  const SecondsPerDay := 86400

  /**
   * `time_ago(dt)` at time `now`. Python's timedelta keeps `days` as the
   * floor of the difference in days and `seconds` in [0, 86400); Dafny's
   * `/` and `%` by a positive constant agree with that.
   */
  function TimeAgo(dt: Option<int>, now: int): (r: string)
    ensures dt.None? <==> r == "Never"
  {
    match dt
    case None => "Never"
    case Some(t) =>
      var days := (now - t) / SecondsPerDay;
      var seconds := (now - t) % SecondsPerDay;
      if days > 0 then DecimalString(days) + " days ago"
      else if seconds > 3600 then DecimalString(seconds / 3600) + " hours ago"
      else if seconds > 60 then DecimalString(seconds / 60) + " minutes ago"
      else "Just now"
  }

  /** Buckets for a timestamp in the past, stated on the elapsed seconds. */
  lemma TimeAgoPast(t: int, now: int)
    requires t <= now
    ensures now - t >= SecondsPerDay ==> TimeAgo(Some(t), now) == DecimalString((now - t) / SecondsPerDay) + " days ago"
    ensures 3600 < now - t < SecondsPerDay ==> TimeAgo(Some(t), now) == DecimalString((now - t) / 3600) + " hours ago"
    ensures 60 < now - t <= 3600 ==> TimeAgo(Some(t), now) == DecimalString((now - t) / 60) + " minutes ago"
    ensures now - t <= 60 ==> TimeAgo(Some(t), now) == "Just now"
  {
  }

  /** Exactly one hour ago is still reported in minutes: the hour test is strict. */
  lemma TimeAgoOneHour(t: int)
    ensures TimeAgo(Some(t), t + 3600) == "60 minutes ago"
  {
  }

  /**
   * A timestamp less than 23 hours in the future has `days == -1` and a
   * large `seconds`, so it is reported as some number of hours ago.
   */
  lemma TimeAgoFuture(t: int, now: int)
    requires now < t < now + 82800
    ensures TimeAgo(Some(t), now) == DecimalString((now - t + SecondsPerDay) / 3600) + " hours ago"
  {
  }

  /** A calendar date-time as `format_datetime` receives it. */
  datatype DateTime = DateTime(year: nat, month: nat, day: nat, hour: nat, minute: nat, second: nat)

  predicate ValidDateTime(d: DateTime) {
    1 <= d.year <= 9999 && 1 <= d.month <= 12 && 1 <= d.day <= 31
    && d.hour < 24 && d.minute < 60 && d.second < 60
  }

  /** `%Y-%m-%d`; glibc writes the year without padding. */
  function FormatDate(d: DateTime): string {
    DecimalString(d.year) + "-" + ZeroPad(d.month, 2) + "-" + ZeroPad(d.day, 2)
  }

  /** `%H:%M:%S` */
  function FormatTime(d: DateTime): string {
    ZeroPad(d.hour, 2) + ":" + ZeroPad(d.minute, 2) + ":" + ZeroPad(d.second, 2)
  }

  /** `format_datetime(dt)`: "Never", or `dt.strftime("%Y-%m-%d %H:%M:%S")`. */
  function FormatDatetime(dt: Option<DateTime>): (r: string)
    ensures dt.None? <==> r == "Never"
  {
    match dt
    case None => "Never"
    case Some(d) => FormatDate(d) + " " + FormatTime(d)
  }

  /** `r[i..i+w]` is a run of digits whose value is `v`. */
  predicate FieldAt(r: string, i: nat, w: nat, v: nat) {
    i + w <= |r| && AllDigits(r[i..i + w]) && ParseDigits(r[i..i + w]) == v
  }

  /** A field keeps its value when text is appended after it or prepended before it. */
  lemma FieldInConcat(a: string, b: string, i: nat, w: nat, v: nat)
    ensures FieldAt(a, i, w, v) ==> FieldAt(a + b, i, w, v)
    ensures FieldAt(b, i, w, v) ==> FieldAt(a + b, |a| + i, w, v)
  {
    if FieldAt(a, i, w, v) {
      assert (a + b)[i..i + w] == a[i..i + w];
    }
    if FieldAt(b, i, w, v) {
      assert (a + b)[|a| + i..|a| + i + w] == b[i..i + w];
    }
  }

  lemma TwoDigitField(n: nat)
    requires n < 100
    ensures |ZeroPad(n, 2)| == 2 && FieldAt(ZeroPad(n, 2), 0, 2, n)
  {
    assert Pow10(2) == 100;
    ZeroPadFields(n, 2);
    assert ZeroPad(n, 2)[0..2] == ZeroPad(n, 2);
  }

  /** Three two-digit fields joined by a one-character separator. */
  lemma {:induction false} TwoDigitTriple(a: nat, b: nat, c: nat, sep: string)
    requires a < 100 && b < 100 && c < 100 && |sep| == 1
    ensures var r := ZeroPad(a, 2) + sep + ZeroPad(b, 2) + sep + ZeroPad(c, 2);
      && |r| == 8 && r[2] == sep[0] && r[5] == sep[0]
      && FieldAt(r, 0, 2, a) && FieldAt(r, 3, 2, b) && FieldAt(r, 6, 2, c)
  {
    TwoDigitField(a);
    TwoDigitField(b);
    TwoDigitField(c);
    var x, y, z := ZeroPad(a, 2), ZeroPad(b, 2), ZeroPad(c, 2);
    FieldInConcat(x, sep, 0, 2, a);
    FieldInConcat(x + sep, y, 0, 2, a);
    FieldInConcat(x + sep, y, 0, 2, b);
    FieldInConcat(x + sep + y, sep, 0, 2, a);
    FieldInConcat(x + sep + y, sep, 3, 2, b);
    FieldInConcat(x + sep + y + sep, z, 0, 2, a);
    FieldInConcat(x + sep + y + sep, z, 3, 2, b);
    FieldInConcat(x + sep + y + sep, z, 0, 2, c);
  }

  /** `%Y-%m-%d` of a four-digit year is ten characters whose fields read back. */
  lemma DateFields(d: DateTime)
    requires ValidDateTime(d) && d.year >= 1000
    ensures var r := FormatDate(d);
      && |r| == 10 && r[4] == '-' && r[7] == '-'
      && FieldAt(r, 0, 4, d.year) && FieldAt(r, 5, 2, d.month) && FieldAt(r, 8, 2, d.day)
  {
    assert Pow10(3) == 1000 && Pow10(4) == 10000;
    DecimalLength(d.year, 3);
    DecimalRoundTrip(d.year);
    var y := DecimalString(d.year);
    assert y[0..4] == y;
    TwoDigitField(d.month);
    TwoDigitField(d.day);
    var m, dd := ZeroPad(d.month, 2), ZeroPad(d.day, 2);
    FieldInConcat(y, "-", 0, 4, d.year);
    FieldInConcat(y + "-", m, 0, 4, d.year);
    FieldInConcat(y + "-", m, 0, 2, d.month);
    FieldInConcat(y + "-" + m, "-", 0, 4, d.year);
    FieldInConcat(y + "-" + m, "-", 5, 2, d.month);
    FieldInConcat(y + "-" + m + "-", dd, 0, 4, d.year);
    FieldInConcat(y + "-" + m + "-", dd, 5, 2, d.month);
    FieldInConcat(y + "-" + m + "-", dd, 0, 2, d.day);
  }

  /** A date and a time joined by a blank keep their fields, the time's shifted by 11. */
  lemma JoinedFields(date: string, time: string, y: nat, mo: nat, da: nat, h: nat, mi: nat, se: nat)
    requires |date| == 10 && date[4] == '-' && date[7] == '-'
    requires FieldAt(date, 0, 4, y) && FieldAt(date, 5, 2, mo) && FieldAt(date, 8, 2, da)
    requires |time| == 8 && time[2] == ':' && time[5] == ':'
    requires FieldAt(time, 0, 2, h) && FieldAt(time, 3, 2, mi) && FieldAt(time, 6, 2, se)
    ensures var r := date + " " + time;
      && |r| == 19
      && r[4] == '-' && r[7] == '-' && r[10] == ' ' && r[13] == ':' && r[16] == ':'
      && FieldAt(r, 0, 4, y) && FieldAt(r, 5, 2, mo) && FieldAt(r, 8, 2, da)
      && FieldAt(r, 11, 2, h) && FieldAt(r, 14, 2, mi) && FieldAt(r, 17, 2, se)
  {
    var ds := date + " ";
    FieldInConcat(date, " ", 0, 4, y);
    FieldInConcat(date, " ", 5, 2, mo);
    FieldInConcat(date, " ", 8, 2, da);
    FieldInConcat(ds, time, 0, 4, y);
    FieldInConcat(ds, time, 5, 2, mo);
    FieldInConcat(ds, time, 8, 2, da);
    FieldInConcat(ds, time, 0, 2, h);
    FieldInConcat(ds, time, 3, 2, mi);
    FieldInConcat(ds, time, 6, 2, se);
    var r := ds + time;
    assert r[4] == date[4] && r[7] == date[7] && r[10] == ' ';
    assert r[13] == time[2] && r[16] == time[5];
  }

  /** For a four-digit year the rendering is 19 characters whose fields read back as the date. */
  lemma FormatDatetimeFields(d: DateTime)
    requires ValidDateTime(d) && d.year >= 1000
    ensures var r := FormatDatetime(Some(d));
      && |r| == 19
      && r[4] == '-' && r[7] == '-' && r[10] == ' ' && r[13] == ':' && r[16] == ':'
      && FieldAt(r, 0, 4, d.year) && FieldAt(r, 5, 2, d.month) && FieldAt(r, 8, 2, d.day)
      && FieldAt(r, 11, 2, d.hour) && FieldAt(r, 14, 2, d.minute) && FieldAt(r, 17, 2, d.second)
  {
    DateFields(d);
    TwoDigitTriple(d.hour, d.minute, d.second, ":");
    JoinedFields(FormatDate(d), FormatTime(d), d.year, d.month, d.day, d.hour, d.minute, d.second);
  }

  /** `get_client_ip`: the X-Forwarded-For entry when present (unparsed), else REMOTE_ADDR. */
  function GetClientIp(req: Request): (ip: string)
    ensures req.forwardedFor.Some? ==> ip == req.forwardedFor.value
    ensures req.forwardedFor.None? ==> ip == req.remoteAddr
  {
    if req.forwardedFor.None? then req.remoteAddr else req.forwardedFor.value
  }
}
