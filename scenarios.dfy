/**
 * Consequences that span several requests, stated on sequences of handler
 * calls against one store.
 */
module Scenarios {
  import opened Wrappers
  import opened Text
  import opened Crypto
  import opened Http
  import opened Helpers
  import opened Models
  import opened Db
  import Decorators
  import ApiKeyRoutes
  import AuthRoutes
  import AdminRoutes

  /**
   * Regenerate looks only at the current status: after the owner deletes
   * (revokes) a key, regenerating is refused, but once an admin sets it
   * active again the owner can regenerate it: the second attempt fails only
   * when the drawn raw key's digest is already stored under another key.
   */
  method RevokeReactivateRegenerate(s: Store, userId: nat, keyId: nat)
    returns (blocked: Reply, after: Reply, ghost drawn: string)
    requires s.Valid() && keyId in s.keys && s.keys[keyId].userId == userId
    modifies s
    ensures s.Valid()
    ensures keyId in s.keys
    ensures blocked == Answer(400, "Cannot regenerate revoked key")
    ensures after == Answer(200, "API key regenerated successfully!") || after == ApiKeyRoutes.ServerError
    ensures after.code == 200 ==> s.keys[keyId].status == Active && s.keys[keyId].usageCount == 0
    ensures after.code != 200 ==> exists id :: id in s.keys && id != keyId && s.keys[id].keyHash == Sha256Hex(drawn)
  {
    var deleted := ApiKeyRoutes.DeleteKey(s, userId, keyId);
    assert s.OwnedKey(keyId, userId).Some? && s.keys[keyId].status == Revoked;
    var raw;
    blocked, raw, drawn := ApiKeyRoutes.RegenerateKey(s, userId, keyId);
    assert s.OwnedKey(keyId, userId).Some?;
    ParseStatusRoundTrip(Active);
    var reactivated := AdminRoutes.AdminUpdateKeyStatus(s, keyId, StatusName(Active));
    after, raw, drawn := ApiKeyRoutes.RegenerateKey(s, userId, keyId);
  }

  /**
   * A key created to expire in one day is refused two days later, and the
   * refusal names its status, which is still "active".
   */
  method ExpiredKeyReportsActive(s: Store, userId: nat, req: Request, now: int)
    returns (created: Reply, gate: Decorators.GateResult)
    requires s.Valid() && userId in s.users && s.KeyCount(userId) < ApiKeyRoutes.MaxKeysPerUser
    modifies s
    ensures s.Valid()
    ensures created.code == 201 ==> gate == Decorators.Denied(Reply(401, "Invalid API key", "API key is active"))
  {
    OneDayExpiry(now);
    var raw;
    ghost var drawn;
    created, raw, drawn := ApiKeyRoutes.GenerateKey(s, userId, "", "1", now);
    if created.code != 201 {
      gate := Decorators.Denied(created);
      return;
    }
    ghost var id := old(s.nextKeyId);
    ghost var k := s.keys[id];
    var presented := req.(apiKeyHeader := Some(raw.value));
    assert Decorators.PresentedDigest(presented) == k.keyHash;
    ExpiredAfterTwoDays(k, now);
    s.KeyWithDigestOf(id);
    gate := Decorators.RequireApiKey(s, presented, now + 2 * SecondsPerDay);
    assert gate == Decorators.Denied(Decorators.RejectedKey(k));
  }

  /** The expiry argument "1" sets the expiry one day ahead. */
  lemma OneDayExpiry(now: int)
    ensures ApiKeyRoutes.ParseExpiry(Strip("1"), now) == Ok(Some(now + SecondsPerDay))
  {
    assert Strip("1") == "1";
    assert DecimalString(1) == "1";
    ApiKeyRoutes.ParseExpiryDecimal(1, now);
  }

  /** A fresh key expiring one day ahead is refused, as active, two days later. */
  lemma ExpiredAfterTwoDays(k: ApiKey, now: int)
    requires k.status == Active && k.expiresAt == Some(now + SecondsPerDay)
    ensures !IsValid(k, now + 2 * SecondsPerDay)
    ensures Decorators.RejectedKey(k) == Reply(401, "Invalid API key", "API key is active")
  {
    Decorators.RejectedActiveKey(k);
  }

  /**
   * A code verifies once: the first successful verification consumes it,
   * and presenting it again is refused as already verified.
   */
  method VerifyOtpTwice(s: Store, userId: nat, code: string, now: int) returns (first: Reply, second: Reply)
    requires s.Valid()
    modifies s
    ensures s.Valid()
    ensures first.code == 200 ==> second == Answer(400, AuthRoutes.MsgAlreadyVerified)
    ensures first.code == 200 ==> userId in s.users && s.users[userId].otpCode.None?
  {
    first := AuthRoutes.VerifyOtp(s, Some(userId), code, now);
    second := AuthRoutes.VerifyOtp(s, Some(userId), code, now);
  }

  /** Toggling another account's admin flag twice restores every account. */
  method ToggleAdminTwice(s: Store, currentId: nat, userId: nat) returns (first: Reply, second: Reply)
    requires s.Valid()
    modifies s
    ensures s.Valid()
    ensures s.users == old(s.users)
  {
    first := AdminRoutes.ToggleUserAdmin(s, currentId, userId);
    second := AdminRoutes.ToggleUserAdmin(s, currentId, userId);
    if userId != currentId && userId in old(s.users) {
      var u := old(s.users)[userId];
      var flipped := u.(isAdmin := !u.isAdmin);
      assert flipped.(isAdmin := !flipped.isAdmin) == u;
      UpdateTwice(old(s.users), userId, flipped, u);
      UpdateSame(old(s.users), userId);
    }
  }
}
