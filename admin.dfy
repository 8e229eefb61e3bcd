/**
 * routes/admin.py: the state changes an admin can make (behind
 * `require_admin`), the caps on page sizes and on the analytics window,
 * and the status filter of the key listing.
 */
module AdminRoutes {
  import opened Wrappers
  import opened Text
  import opened Http
  import opened Models
  import opened Db

  /** Werkzeug's `get_or_404` answer. */
  const NotFound: Reply := Answer(404, "Not Found")

  /**
   * `min(request.args.get(name, default, type=int), cap)`: a missing
   * argument, or one `int()` rejects, gives the default; the value is then
   * capped from above only.
   */
  function CappedArg(raw: Option<string>, default: int, cap: int): (r: int)
    ensures r <= cap
    ensures raw.None? || ParseInt(Strip(raw.value)).None? ==> r == (if default <= cap then default else cap)
    ensures raw.Some? && ParseInt(Strip(raw.value)).Some? ==>
      var v := ParseInt(Strip(raw.value)).value;
      r == (if v <= cap then v else cap)
  {
    var v := if raw.Some? && ParseInt(Strip(raw.value)).Some? then ParseInt(Strip(raw.value)).value else default;
    if v <= cap then v else cap
  }

  /**
   * Page size of the user listing and of the key listing, which share the
   * same `per_page` argument: default 20, at most 100.
   */
  function ListingPerPage(raw: Option<string>): (r: int)
    ensures r <= 100
    ensures raw.None? ==> r == 20
  {
    CappedArg(raw, 20, 100)
  }

  /** Page size of the recent-activity listing: default 20, at most 50. */
  function ActivityPerPage(raw: Option<string>): (r: int)
    ensures r <= 50
    ensures raw.None? ==> r == 20
  {
    CappedArg(raw, 20, 50)
  }

  /** Window of the usage analytics in days: default 30, at most 365. */
  function AnalyticsDays(raw: Option<string>): (r: int)
    ensures r <= 365
    ensures raw.None? ==> r == 30
  {
    CappedArg(raw, 30, 365)
  }

  /** A page size or window written in decimal is honoured up to the cap and cut to it beyond. */
  lemma CappedDecimal(n: nat, default: int, cap: int)
    ensures |DecimalString(n)| <= MaxStrDigits ==>
      CappedArg(Some(DecimalString(n)), default, cap) == (if n <= cap then n else cap)
    ensures |DecimalString(n)| > MaxStrDigits ==>
      CappedArg(Some(DecimalString(n)), default, cap) == (if default <= cap then default else cap)
  {
    var d := DecimalString(n);
    assert IsDigit(d[0]) && IsDigit(d[|d| - 1]);
    assert Strip(d) == d;
    ParseIntOfDecimal(n);
  }

  /** The user and key listings honour a size up to 100 and cut a larger one to 100. */
  lemma ListingPageCap(n: nat)
    ensures |DecimalString(n)| <= MaxStrDigits ==>
      ListingPerPage(Some(DecimalString(n))) == (if n <= 100 then n else 100)
  {
    CappedDecimal(n, 20, 100);
  }

  /**
   * A digit string too long for `int()` is not capped but ignored: every
   * listing falls back to its default.
   */
  lemma OverlongArgDefaults(d: string)
    requires AllDigits(d) && |d| > MaxStrDigits
    ensures ListingPerPage(Some(d)) == 20
    ensures ActivityPerPage(Some(d)) == 20 && AnalyticsDays(Some(d)) == 30
  {
    assert IsDigit(d[0]) && IsDigit(d[|d| - 1]);
  }

  /** A larger request is cut to the cap; `int()` ignores surrounding blanks. */
  lemma CapCutsLargeRequest()
    ensures ListingPerPage(Some(" 500 ")) == 100
  {
    assert DecimalString(500) == "500" by { assert DecimalString(50) == "50"; }
    assert " 500 " == [' '] + "500" + [' '];
    StripOneEach(' ', "500", ' ');
    ParseIntOfDecimal(500);
  }

  /** The recent-activity listing has the lower cap of 50. */
  lemma ActivityPageCap(n: nat)
    ensures |DecimalString(n)| <= MaxStrDigits ==>
      ActivityPerPage(Some(DecimalString(n))) == (if n <= 50 then n else 50)
  {
    CappedDecimal(n, 20, 50);
  }

  /** An analytics window beyond a year is cut to 365 days. */
  lemma AnalyticsWindowCap(n: nat)
    ensures |DecimalString(n)| <= MaxStrDigits ==>
      AnalyticsDays(Some(DecimalString(n))) == (if n <= 365 then n else 365)
  {
    CappedDecimal(n, 30, 365);
  }

  /** An unreadable argument gives the default. */
  lemma CapDefaultsOnGarbage()
    ensures ListingPerPage(Some("ten")) == 20
  {
    assert !IsDigit("ten"[0]);
  }

  /**
   * The status filter of `get_all_keys`: the stripped (not lower-cased)
   * argument filters only when it is exactly one of the status names. Where
   * it applies it agrees with `ParseStatus`, which the status updates use.
   */
  function KeyStatusFilter(raw: string): (r: Option<Status>)
    ensures r.Some? <==> exists st :: StatusName(st) == Strip(raw)
    ensures r.Some? ==> StatusName(r.value) == Strip(raw) && ParseStatus(raw) == r
  {
    var p := ParseStatus(raw);
    if p.Some? && StatusName(p.value) == Strip(raw) then p
    else
      assert forall st :: StatusName(st) == Strip(raw) ==> ParseStatus(raw) == Some(st) by {
        forall st | StatusName(st) == Strip(raw) ensures ParseStatus(raw) == Some(st) {
          ExactNameParses(st, raw);
        }
      }
      None
  }

  /** An argument that strips to a status name is read as that status. */
  lemma ExactNameParses(st: Status, raw: string)
    requires StatusName(st) == Strip(raw)
    ensures ParseStatus(raw) == Some(st)
  {
    var name := StatusName(st);
    LowerOfLowercase(name);
    assert Lower(Strip(raw)) == name;
    var r := ParseStatus(raw);
    // the three names have different lengths, so equal names are equal statuses
    assert r.Some? && |StatusName(r.value)| == |name|;
  }

  /** Unlike the status updates, the filter is case-sensitive: "Active" filters nothing. */
  lemma FilterIsCaseSensitive()
    ensures KeyStatusFilter("Active").None?
    ensures ParseStatus("Active") == Some(Active)
  {
    assert !IsSpace("Active"[0]) && !IsSpace("Active"[5]);
    assert Lower("Active") == "active";
  }

  /**
   * The ids `get_all_keys` lists (before pagination): the status filter
   * when it applies, and the owner filter when `user_id` is a non-zero int.
   */
  function ListedKeys(keys: map<nat, ApiKey>, rawStatus: string, userId: Option<int>): (r: set<nat>)
    ensures r <= keys.Keys
    ensures forall id :: id in keys ==>
      (id in r <==>
        && (KeyStatusFilter(rawStatus).None? || keys[id].status == KeyStatusFilter(rawStatus).value)
        && (userId.None? || userId.value == 0 || keys[id].userId == userId.value))
  {
    var st := KeyStatusFilter(rawStatus);
    set id | id in keys
      && (st.None? || keys[id].status == st.value)
      && (userId.None? || userId.value == 0 || keys[id].userId == userId.value)
  }

  /** A status argument that is not a valid name lists the same keys as none at all. */
  lemma InvalidFilterIgnored(keys: map<nat, ApiKey>, rawStatus: string, userId: Option<int>)
    requires KeyStatusFilter(rawStatus).None?
    ensures ListedKeys(keys, rawStatus, userId) == ListedKeys(keys, "", userId)
  {
    assert KeyStatusFilter("").None?;
  }

  /**
   * `toggle_user_admin`: an admin cannot change their own flag (checked
   * before the lookup); otherwise the target's `is_admin` is flipped and
   * nothing else changes.
   */
  method ToggleUserAdmin(s: Store, currentId: nat, userId: nat) returns (reply: Reply)
    requires s.Valid()
    modifies s`users
    ensures s.Valid()
    ensures userId == currentId ==> reply == Answer(400, "Cannot modify your own admin status") && unchanged(s)
    ensures userId != currentId && userId !in old(s.users) ==> reply == NotFound && unchanged(s)
    ensures userId != currentId && userId in old(s.users) ==>
      var u := old(s.users)[userId];
      && s.users == old(s.users)[userId := u.(isAdmin := !u.isAdmin)]
      && reply == Answer(200, if !u.isAdmin then "User admin status enabled" else "User admin status disabled")
  {
    if userId == currentId {
      return Answer(400, "Cannot modify your own admin status");
    }
    if userId !in s.users {
      return NotFound;
    }
    var u := s.users[userId];
    s.PutUser(u.(isAdmin := !u.isAdmin));
    reply := Answer(200, if !u.isAdmin then "User admin status enabled" else "User admin status disabled");
  }

  /** `toggle_user_verification`: flips `otp_verified` of any account, the caller's own included. */
  method ToggleUserVerification(s: Store, userId: nat) returns (reply: Reply)
    requires s.Valid()
    modifies s`users
    ensures s.Valid()
    ensures userId !in old(s.users) ==> reply == NotFound && unchanged(s)
    ensures userId in old(s.users) ==>
      var u := old(s.users)[userId];
      && s.users == old(s.users)[userId := u.(otpVerified := !u.otpVerified)]
      && reply == Answer(200, if !u.otpVerified then "User verification enabled" else "User verification disabled")
  {
    if userId !in s.users {
      return NotFound;
    }
    var u := s.users[userId];
    s.PutUser(u.(otpVerified := !u.otpVerified));
    reply := Answer(200, if !u.otpVerified then "User verification enabled" else "User verification disabled");
  }

  /**
   * `admin_update_key_status`: any stored key, whoever owns it, takes the
   * named status; a revoked key can be made active again.
   */
  method AdminUpdateKeyStatus(s: Store, keyId: nat, rawStatus: string) returns (reply: Reply)
    requires s.Valid()
    modifies s`keys
    ensures s.Valid()
    ensures keyId !in old(s.keys) ==> reply == NotFound && unchanged(s)
    ensures keyId in old(s.keys) && ParseStatus(rawStatus).None? ==> reply == Answer(400, "Invalid status") && unchanged(s)
    ensures keyId in old(s.keys) && ParseStatus(rawStatus).Some? ==>
      var st := ParseStatus(rawStatus).value;
      && s.keys == old(s.keys)[keyId := old(s.keys)[keyId].(status := st)]
      && reply == Answer(200, "API key status updated to " + StatusName(st))
  {
    if keyId !in s.keys {
      return NotFound;
    }
    var st := ParseStatus(rawStatus);
    if st.None? {
      return Answer(400, "Invalid status");
    }
    s.PutKey(s.keys[keyId].(status := st.value));
    reply := Answer(200, "API key status updated to " + StatusName(st.value));
  }
}
