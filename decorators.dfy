/**
 * utils/decorators.py: the gates in front of the view functions. The API
 * key gate reads the store and writes one usage row for every presented
 * key it finds; the two session gates only read the logged-in user.
 */
module Decorators {
  import opened Wrappers
  import opened Crypto
  import opened Http
  import opened Helpers
  import opened Models
  import opened Db

  /** `request.endpoint or request.path`: the route name, else the raw path. */
  function EndpointOf(req: Request): (e: string)
    ensures req.endpoint.Some? && req.endpoint.value != "" ==> e == req.endpoint.value
    ensures req.endpoint.None? || req.endpoint.value == "" ==> e == req.path
  {
    if req.endpoint.Some? && req.endpoint.value != "" then req.endpoint.value else req.path
  }

  /** `request.headers.get('X-API-Key')` is present and non-empty. */
  predicate Presented(req: Request) {
    req.apiKeyHeader.Some? && req.apiKeyHeader.value != ""
  }

  /** The digest the gate looks up: SHA-256 of the presented key. */
  function PresentedDigest(req: Request): Digest
    requires Presented(req)
  {
    Sha256Hex(req.apiKeyHeader.value)
  }

  const MissingKey: Reply := Reply(401, "API key required", "Please provide API key in X-API-Key header")
  const UnknownKey: Reply := Reply(401, "Invalid API key", "The provided API key is not valid")

  /** The refusal for a stored key that is not valid, naming its status. */
  function RejectedKey(k: ApiKey): (r: Reply)
    ensures r.code == 401 && r.text == "Invalid API key"
    ensures |r.detail| > 11 && ParseStatus(r.detail[11..]) == Some(k.status)
  {
    var name := StatusName(k.status);
    assert ("API key is " + name)[11..] == name;
    ParseStatusRoundTrip(k.status);
    Reply(401, "Invalid API key", "API key is " + name)
  }

  /** An expired key is still active, and the refusal says so. */
  lemma RejectedActiveKey(k: ApiKey)
    requires k.status == Active
    ensures RejectedKey(k) == Reply(401, "Invalid API key", "API key is active")
  {
  }

  /** What the gate decides: refuse with a reply, or run the view with this key. */
  datatype GateResult = Denied(reply: Reply) | Admitted(key: ApiKey)

  /** The usage row the gate writes for a found key, with the client details. */
  function GateRow(id: nat, keyId: nat, req: Request, status: UsageStatus, now: int): ApiUsage {
    ApiUsage(id, keyId, EndpointOf(req), now, status, Some(GetClientIp(req)), req.userAgent)
  }

  /**
   * `require_api_key`. A missing key, or one whose digest no stored key
   * has, is refused and the store is unchanged. Otherwise the key is the
   * one stored key with the presented digest. A found key that is not
   * valid is refused and exactly one `invalid_key` row is written for it.
   * A valid key is admitted: `record_usage` counts the use, and the row it
   * adds is the newest of that key, so it is the one that receives the
   * client address and user agent.
   */
  method RequireApiKey(s: Store, req: Request, now: int) returns (r: GateResult)
    requires s.Valid()
    modifies s`keys, s`usage, s`nextUsageId
    ensures s.Valid()
    ensures !Presented(req) ==> r == Denied(MissingKey) && unchanged(s)
    ensures Presented(req) && old(s.KeyWithDigest(PresentedDigest(req))).None? ==> r == Denied(UnknownKey) && unchanged(s)
    ensures Presented(req) && old(s.KeyWithDigest(PresentedDigest(req))).Some? ==>
      var id := old(s.KeyWithDigest(PresentedDigest(req))).value;
      var k := old(s.keys)[id];
      var row := old(s.nextUsageId);
      && s.nextUsageId == row + 1
      && (!IsValid(k, now) ==>
            && r == Denied(RejectedKey(k))
            && s.keys == old(s.keys)
            && s.usage == old(s.usage)[row := GateRow(row, id, req, InvalidKey, now)])
      && (IsValid(k, now) ==>
            && r == Admitted(Touched(k, now))
            && s.keys == old(s.keys)[id := Touched(k, now)]
            && s.usage == old(s.usage)[row := GateRow(row, id, req, Success, now)])
  {
    if !Presented(req) {
      return Denied(MissingKey);
    }
    var found := s.FindKeyByHash(PresentedDigest(req));
    if found.None? {
      return Denied(UnknownKey);
    }
    var id := found.value;
    var k := s.keys[id];
    if !IsValid(k, now) {
      var row := s.AddUsage(id, EndpointOf(req), InvalidKey, now, Some(GetClientIp(req)), req.userAgent);
      return Denied(RejectedKey(k));
    }
    r := Admit(s, id, req, now);
  }

  /**
   * The admitting path of `require_api_key` for the stored key `id`: the
   * row `record_usage` adds is the key's newest, so the client details land
   * on it.
   */
  method Admit(s: Store, id: nat, req: Request, now: int) returns (r: GateResult)
    requires s.Valid() && id in s.keys
    modifies s`keys, s`usage, s`nextUsageId
    ensures s.Valid()
    ensures r == Admitted(Touched(old(s.keys)[id], now))
    ensures s.keys == old(s.keys)[id := Touched(old(s.keys)[id], now)]
    ensures s.nextUsageId == old(s.nextUsageId) + 1
    ensures s.usage == old(s.usage)[old(s.nextUsageId) := GateRow(old(s.nextUsageId), id, req, Success, now)]
  {
    ghost var before := s.usage;
    var row := s.RecordUsage(id, EndpointOf(req), Success, now);
    ghost var bare := s.usage[row];
    ghost var full := GateRow(row, id, req, Success, now);
    var newest := s.NewestUsageOf(id);
    assert s.usage[row].keyId == id;
    assert newest == Some(row);
    s.SetUsageClient(newest.value, GetClientIp(req), req.userAgent);
    assert bare.(ipAddress := Some(GetClientIp(req)), userAgent := req.userAgent) == full;
    UpdateTwice(before, row, bare, full);
    r := Admitted(s.keys[id]);
  }

  /** What a session gate decides: run the view, or refuse with a reply. */
  datatype Gate = Proceed | Refuse(reply: Reply)

  /**
   * `require_admin`, with the session's user (`None` when anonymous):
   * 401 for an anonymous visitor, 403 for a user who is not an admin.
   */
  function RequireAdmin(current: Option<User>): (g: Gate)
    ensures g.Proceed? <==> current.Some? && current.value.isAdmin
    ensures current.None? ==> g == Refuse(Answer(401, "Authentication required"))
    ensures current.Some? && !current.value.isAdmin ==> g == Refuse(Answer(403, "Admin access required"))
  {
    if current.None? then Refuse(Answer(401, "Authentication required"))
    else if !current.value.isAdmin then Refuse(Answer(403, "Admin access required"))
    else Proceed
  }

  /**
   * `require_verified_user`: 401 for an anonymous visitor, 403 for a user
   * whose email is not verified.
   */
  function RequireVerifiedUser(current: Option<User>): (g: Gate)
    ensures g.Proceed? <==> current.Some? && current.value.otpVerified
    ensures current.None? ==> g == Refuse(Answer(401, "Authentication required"))
    ensures current.Some? && !current.value.otpVerified ==> g == Refuse(Answer(403, "Email verification required"))
  {
    if current.None? then Refuse(Answer(401, "Authentication required"))
    else if !current.value.otpVerified then Refuse(Answer(403, "Email verification required"))
    else Proceed
  }
}
