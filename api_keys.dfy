/**
 * routes/api_keys.py: the key lifecycle handlers of a logged-in, verified
 * user. Every per-key handler looks the key up by (key id, current user),
 * so another user's key is "not found". Form fields arrive as strings that
 * default to "" and are stripped before use.
 */
module ApiKeyRoutes {
  import opened Wrappers
  import opened Text
  import opened Crypto
  import opened Http
  import opened Helpers
  import opened Models
  import opened Db

  const MaxKeysPerUser: nat := 10
  const MaxExpiryDays: int := 365
  /** Length of the raw keys the handlers generate. */
  const RawKeyLength: nat := 128

  const NotFound: Reply := Answer(404, "API key not found")
  const MsgBadDays := "Invalid expiration days"
  const MsgDaysNotPositive := "Expiration days must be positive"
  const MsgDaysTooMany := "Maximum expiration is 365 days"
  /** An uncaught IntegrityError at commit (the unique index on key_hash) is a server error. */
  const ServerError: Reply := Answer(500, "Internal Server Error")

  /**
   * The expiry field of create and update, already stripped: "" means no
   * expiry; otherwise `int()` must succeed and give 1..365 days, and the
   * expiry is that many days from now.
   */
  function ParseExpiry(e: string, now: int): (r: Result<Option<int>>)
    ensures r == Ok(None) <==> e == ""
    ensures e != "" && ParseInt(e).None? ==> r == Err(MsgBadDays)
    ensures e != "" && ParseInt(e).Some? && ParseInt(e).value <= 0 ==> r == Err(MsgDaysNotPositive)
    ensures e != "" && ParseInt(e).Some? && ParseInt(e).value > MaxExpiryDays ==> r == Err(MsgDaysTooMany)
    ensures e != "" && ParseInt(e).Some? && 1 <= ParseInt(e).value <= MaxExpiryDays ==>
      r == Ok(Some(now + ParseInt(e).value * SecondsPerDay))
  {
    if e == "" then Ok(None)
    else
      match ParseInt(e)
      case None => Err(MsgBadDays)
      case Some(d) =>
        if d <= 0 then Err(MsgDaysNotPositive)
        else if d > MaxExpiryDays then Err(MsgDaysTooMany)
        else Ok(Some(now + d * SecondsPerDay))
  }

  /**
   * A day count written in decimal is accepted exactly when it is 1..365,
   * with the source's messages; one too long for `int()` is not a number.
   */
  lemma ParseExpiryDecimal(d: nat, now: int)
    ensures d == 0 ==> ParseExpiry(DecimalString(d), now) == Err(MsgDaysNotPositive)
    ensures 1 <= d <= 365 ==> ParseExpiry(DecimalString(d), now) == Ok(Some(now + d * SecondsPerDay))
    ensures d > 365 && |DecimalString(d)| <= MaxStrDigits ==> ParseExpiry(DecimalString(d), now) == Err(MsgDaysTooMany)
    ensures |DecimalString(d)| > MaxStrDigits ==> ParseExpiry(DecimalString(d), now) == Err(MsgBadDays)
  {
    ParseIntOfDecimal(d);
    if d < 1000 {
      SmallDecimal(d);
    }
  }

  /** A digit string longer than `int()` accepts is refused as not a number, not as too many days. */
  lemma ParseExpiryOverlong(e: string, now: int)
    requires AllDigits(e) && |e| > MaxStrDigits
    ensures ParseExpiry(e, now) == Err(MsgBadDays)
  {
    assert IsDigit(e[0]);
  }

  /** Negative counts, signs and non-numbers are refused with their own messages. */
  lemma ParseExpiryExamples(now: int)
    ensures ParseExpiry("-3", now) == Err(MsgDaysNotPositive)
    ensures ParseExpiry("+30", now) == Ok(Some(now + 30 * SecondsPerDay))
    ensures ParseExpiry("soon", now) == Err(MsgBadDays)
    ensures ParseExpiry("3.5", now) == Err(MsgBadDays)
  {
    assert "-3"[1..] == "3";
    assert "+30"[1..] == "30";
    assert ParseDigits("30") == 10 * ParseDigits("3") + 0 by { assert "30"[..1] == "3"; }
    assert !IsDigit("soon"[0]);
    assert !IsDigit("3.5"[1]);
  }

  /** `key_name or f"API Key {count + 1}"` */
  function KeyName(name: string, count: nat): (r: string)
    ensures name != "" ==> r == name
    ensures name == "" ==> r == "API Key " + DecimalString(count + 1)
  {
    if name != "" then name else "API Key " + DecimalString(count + 1)
  }

  /**
   * `generate_key` (POST). The expiry is checked before the quota; a user
   * already holding 10 keys of any status is refused. On success a new
   * active key storing the digest of the returned 128-character raw key is
   * added, and the caller's count grows by one to at most 10. `drawn` is
   * the raw key the generator produced: a valid request under quota fails
   * only when a stored key already has its digest (the unique index), and
   * then the reply is a server error.
   */
  method GenerateKey(s: Store, userId: nat, rawName: string, rawExpiry: string, now: int)
    returns (reply: Reply, raw: Option<string>, ghost drawn: string)
    requires s.Valid() && userId in s.users
    modifies s`keys, s`nextKeyId
    ensures s.Valid()
    ensures ParseExpiry(Strip(rawExpiry), now).Err? ==>
      reply == Answer(400, ParseExpiry(Strip(rawExpiry), now).message) && raw.None? && unchanged(s)
    ensures ParseExpiry(Strip(rawExpiry), now).Ok? && old(s.KeyCount(userId)) >= MaxKeysPerUser ==>
      reply == Answer(400, "Maximum number of API keys reached (10)") && raw.None? && unchanged(s)
    ensures reply.code != 201 ==> raw.None? && unchanged(s)
    ensures ParseExpiry(Strip(rawExpiry), now).Ok? && old(s.KeyCount(userId)) < MaxKeysPerUser ==>
      reply.code in {201, 500}
    ensures reply.code == 500 <==>
      && ParseExpiry(Strip(rawExpiry), now).Ok? && old(s.KeyCount(userId)) < MaxKeysPerUser
      && old(s.KeyWithDigest(Sha256Hex(drawn))).Some?
    ensures reply.code == 500 ==> reply == ServerError
    ensures reply.code == 201 ==>
      var id := old(s.nextKeyId);
      && reply == Answer(201, "API key generated successfully!")
      && ParseExpiry(Strip(rawExpiry), now).Ok? && old(s.KeyCount(userId)) < MaxKeysPerUser
      && raw == Some(drawn) && |drawn| == RawKeyLength && (forall i :: 0 <= i < |drawn| ==> drawn[i] in KeyAlphabet)
      && s.keys == old(s.keys)[id :=
           NewApiKey(id, userId, KeyName(Strip(rawName), old(s.KeyCount(userId))),
                     ParseExpiry(Strip(rawExpiry), now).value, raw.value, now)]
      && VerifyKey(s.keys[id], raw.value)
      && s.KeyCount(userId) == old(s.KeyCount(userId)) + 1 <= MaxKeysPerUser
    ensures reply.code in {201, 400, 500}
  {
    drawn := "";
    var name := Strip(rawName);
    var expiry := ParseExpiry(Strip(rawExpiry), now);
    if expiry.Err? {
      return Answer(400, expiry.message), None, drawn;
    }
    var count := s.KeyCount(userId);
    if count >= MaxKeysPerUser {
      return Answer(400, "Maximum number of API keys reached (10)"), None, drawn;
    }
    var key := GenerateSecureApiKey(RawKeyLength);
    drawn := key;
    var clash := s.FindKeyByHash(Sha256Hex(key));
    if clash.Some? {
      return ServerError, None, drawn;
    }
    var id := s.InsertKey(NewApiKey(0, userId, KeyName(name, count), expiry.value, key, now));
    reply, raw := Answer(201, "API key generated successfully!"), Some(key);
  }

  /** `get_key`: the caller's own key, or 404. It changes nothing. */
  method GetKey(s: Store, userId: nat, keyId: nat) returns (reply: Reply, info: Option<ApiKey>)
    ensures info.Some? <==> keyId in s.keys && s.keys[keyId].userId == userId
    ensures info.Some? ==> info.value == s.keys[keyId] && reply == Answer(200, "")
    ensures info.None? ==> reply == NotFound
  {
    var owned := s.OwnedKey(keyId, userId);
    if owned.None? {
      return NotFound, None;
    }
    return Answer(200, ""), owned;
  }

  /**
   * `update_key_status`: the stripped, lower-cased input must name one of
   * the three statuses; only the status of the caller's key changes.
   */
  method UpdateKeyStatus(s: Store, userId: nat, keyId: nat, rawStatus: string) returns (reply: Reply)
    requires s.Valid()
    modifies s`keys
    ensures s.Valid()
    ensures old(s.OwnedKey(keyId, userId)).None? ==> reply == NotFound && unchanged(s)
    ensures old(s.OwnedKey(keyId, userId)).Some? && ParseStatus(rawStatus).None? ==>
      reply == Answer(400, "Invalid status. Must be active, inactive, or revoked") && unchanged(s)
    ensures old(s.OwnedKey(keyId, userId)).Some? && ParseStatus(rawStatus).Some? ==>
      var st := ParseStatus(rawStatus).value;
      && reply == Answer(200, "API key status updated to " + StatusName(st))
      && s.keys == old(s.keys)[keyId := old(s.keys)[keyId].(status := st)]
  {
    var owned := s.OwnedKey(keyId, userId);
    if owned.None? {
      return NotFound;
    }
    var st := ParseStatus(rawStatus);
    if st.None? {
      return Answer(400, "Invalid status. Must be active, inactive, or revoked");
    }
    s.PutKey(owned.value.(status := st.value));
    reply := Answer(200, "API key status updated to " + StatusName(st.value));
  }

  /** `delete_key`: a soft delete; the key stays, revoked, and its usage rows stay. */
  method DeleteKey(s: Store, userId: nat, keyId: nat) returns (reply: Reply)
    requires s.Valid()
    modifies s`keys
    ensures s.Valid()
    ensures old(s.OwnedKey(keyId, userId)).None? ==> reply == NotFound && unchanged(s)
    ensures old(s.OwnedKey(keyId, userId)).Some? ==>
      && reply == Answer(200, "API key deleted successfully")
      && s.keys == old(s.keys)[keyId := old(s.keys)[keyId].(status := Revoked)]
    ensures s.keys.Keys == old(s.keys.Keys) && s.usage == old(s.usage)
  {
    var owned := s.OwnedKey(keyId, userId);
    if owned.None? {
      return NotFound;
    }
    s.PutKey(owned.value.(status := Revoked));
    reply := Answer(200, "API key deleted successfully");
  }

  /**
   * What regeneration does to the stored key: a new digest and preview,
   * active again, usage count 0 and never used; the name, expiry, owner
   * and creation time are kept.
   */
  function Regenerated(k: ApiKey, raw: string): (r: ApiKey)
    ensures VerifyKey(r, raw) && r.keyPreview == Preview(raw)
    ensures r.status == Active && r.usageCount == 0 && r.lastUsed.None?
    ensures r.id == k.id && r.userId == k.userId && r.name == k.name
    ensures r.expiresAt == k.expiresAt && r.createdAt == k.createdAt
  {
    SetKeyHash(k, raw).(status := Active, usageCount := 0, lastUsed := None)
  }

  /** A regenerated key no longer accepts the raw key it replaced. */
  lemma RegeneratedRejectsOldKey(k: ApiKey, oldRaw: string, raw: string)
    requires VerifyKey(k, oldRaw) && oldRaw != raw
    ensures !VerifyKey(Regenerated(k, raw), oldRaw)
  {
    SetKeyHashVerifies(k, raw, oldRaw);
  }

  /**
   * `regenerate_key`: only the key's current status is checked, so a
   * revoked key is refused, and any other key (including one an admin
   * moved back from revoked) gets a fresh raw key. `drawn` is the raw key
   * the generator produced; the commit fails (a server error) only when
   * another stored key already has its digest.
   */
  method RegenerateKey(s: Store, userId: nat, keyId: nat) returns (reply: Reply, raw: Option<string>, ghost drawn: string)
    requires s.Valid()
    modifies s`keys
    ensures s.Valid()
    ensures old(s.OwnedKey(keyId, userId)).None? ==> reply == NotFound && raw.None? && unchanged(s)
    ensures old(s.OwnedKey(keyId, userId)).Some? && old(s.keys)[keyId].status == Revoked ==>
      reply == Answer(400, "Cannot regenerate revoked key") && raw.None? && unchanged(s)
    ensures reply.code != 200 ==> raw.None? && unchanged(s)
    ensures reply.code == 200 ==>
      && old(s.OwnedKey(keyId, userId)).Some? && old(s.keys)[keyId].status != Revoked
      && reply == Answer(200, "API key regenerated successfully!")
      && raw == Some(drawn) && |drawn| == RawKeyLength
      && s.keys == old(s.keys)[keyId := Regenerated(old(s.keys)[keyId], drawn)]
    ensures reply.code in {200, 400, 404, 500}
    ensures reply.code == 404 <==> old(s.OwnedKey(keyId, userId)).None?
    ensures reply.code == 400 <==> old(s.OwnedKey(keyId, userId)).Some? && old(s.keys)[keyId].status == Revoked
    ensures reply.code == 500 <==>
      && old(s.OwnedKey(keyId, userId)).Some? && old(s.keys)[keyId].status != Revoked
      && (exists id :: id in old(s.keys) && id != keyId && old(s.keys)[id].keyHash == Sha256Hex(drawn))
    ensures reply.code == 500 ==> reply == ServerError
  {
    drawn := "";
    var owned := s.OwnedKey(keyId, userId);
    if owned.None? {
      return NotFound, None, drawn;
    }
    if owned.value.status == Revoked {
      return Answer(400, "Cannot regenerate revoked key"), None, drawn;
    }
    var key := GenerateSecureApiKey(RawKeyLength);
    drawn := key;
    var clash := s.HashTaken(Sha256Hex(key), keyId);
    if clash {
      return ServerError, None, drawn;
    }
    s.PutKey(Regenerated(owned.value, key));
    reply, raw := Answer(200, "API key regenerated successfully!"), Some(key);
  }

  /**
   * The effect of `update_key` on the stored key, given the stripped name
   * and expiry: a non-empty name replaces the name; an empty expiry clears
   * the expiry, a non-empty one is parsed as in create. A parse error
   * returns before the commit, so nothing is stored.
   */
  function ApplyUpdate(k: ApiKey, name: string, e: string, now: int): (r: Result<ApiKey>)
    ensures r.Err? <==> ParseExpiry(e, now).Err?
    ensures r.Err? ==> r.message == ParseExpiry(e, now).message
    ensures r.Ok? ==> r.value.expiresAt == ParseExpiry(e, now).value
    ensures r.Ok? ==> r.value.name == (if name != "" then name else k.name)
    ensures r.Ok? ==> r.value.(name := k.name, expiresAt := k.expiresAt) == k
  {
    var named := if name != "" then k.(name := name) else k;
    match ParseExpiry(e, now)
    case Err(m) => Err(m)
    case Ok(expiry) => Ok(named.(expiresAt := expiry))
  }

  /** Submitting the form with an empty expiry removes the key's expiry. */
  lemma UpdateEmptyExpiryClears(k: ApiKey, name: string, now: int)
    ensures ApplyUpdate(k, name, "", now).Ok?
    ensures ApplyUpdate(k, name, "", now).value.expiresAt.None?
  {
  }

  /** `update_key`: the caller's key, updated as `ApplyUpdate` says, or 400 with nothing stored. */
  method UpdateKey(s: Store, userId: nat, keyId: nat, rawName: string, rawExpiry: string, now: int)
    returns (reply: Reply)
    requires s.Valid()
    modifies s`keys
    ensures s.Valid()
    ensures old(s.OwnedKey(keyId, userId)).None? ==> reply == NotFound && unchanged(s)
    ensures old(s.OwnedKey(keyId, userId)).Some? ==>
      match ApplyUpdate(old(s.keys)[keyId], Strip(rawName), Strip(rawExpiry), now)
      case Err(m) => reply == Answer(400, m) && unchanged(s)
      case Ok(k) => reply == Answer(200, "API key updated successfully!") && s.keys == old(s.keys)[keyId := k]
  {
    var owned := s.OwnedKey(keyId, userId);
    if owned.None? {
      return NotFound;
    }
    var updated := ApplyUpdate(owned.value, Strip(rawName), Strip(rawExpiry), now);
    if updated.Err? {
      return Answer(400, updated.message);
    }
    s.PutKey(updated.value);
    reply := Answer(200, "API key updated successfully!");
  }
}
