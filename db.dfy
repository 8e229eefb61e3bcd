/**
 * The persistent store behind the handlers: the four tables as maps from
 * primary key to record, with the unique columns (username, email,
 * key_hash) and foreign keys as the store's invariant. A handler's
 * `db.session.commit()` is an update of these maps; rows are added with
 * the next free primary key, and nothing in the modelled core deletes one.
 */
module Db {
  import opened Wrappers
  import opened Text
  import opened Crypto
  import opened Models

  ghost predicate UsersWellFormed(users: map<nat, User>, next: nat) {
    && (forall id :: id in users ==> 0 < id < next && users[id].id == id)
    && (forall a, b :: a in users && b in users && users[a].username == users[b].username ==> a == b)
    && (forall a, b :: a in users && b in users && users[a].email == users[b].email ==> a == b)
    && (forall id :: id in users ==> Lower(users[id].email) == users[id].email)
  }

  ghost predicate KeysWellFormed(keys: map<nat, ApiKey>, users: map<nat, User>, next: nat) {
    && (forall id :: id in keys ==> 0 < id < next && keys[id].id == id && keys[id].userId in users)
    && (forall a, b :: a in keys && b in keys && keys[a].keyHash == keys[b].keyHash ==> a == b)
  }

  ghost predicate UsageWellFormed(usage: map<nat, ApiUsage>, keys: map<nat, ApiKey>, next: nat) {
    forall id :: id in usage ==> 0 < id < next && usage[id].id == id && usage[id].keyId in keys
  }

  ghost predicate LoginsWellFormed(logins: map<nat, LoginHistory>, users: map<nat, User>, next: nat) {
    forall id :: id in logins ==> 0 < id < next && logins[id].id == id && logins[id].userId in users
  }

  /** Rewriting a usage row under its own id and key keeps the table well-formed. */
  lemma UsageRewrite(usage: map<nat, ApiUsage>, keys: map<nat, ApiKey>, next: nat, row: ApiUsage)
    requires UsageWellFormed(usage, keys, next)
    requires row.id in usage && usage[row.id].keyId == row.keyId
    ensures UsageWellFormed(usage[row.id := row], keys, next)
  {
  }

  /** A key under the next id, with an existing owner and a fresh digest, keeps the keys and usage tables well-formed. */
  lemma KeyInsert(keys: map<nat, ApiKey>, users: map<nat, User>, usage: map<nat, ApiUsage>, next: nat, nextUsage: nat, k: ApiKey)
    requires KeysWellFormed(keys, users, next) && UsageWellFormed(usage, keys, nextUsage)
    requires 0 < k.id == next && k.userId in users
    requires forall x :: x in keys ==> keys[x].keyHash != k.keyHash
    ensures KeysWellFormed(keys[next := k], users, next + 1)
    ensures UsageWellFormed(usage, keys[next := k], nextUsage)
  {
  }

  /** Every finite set of ids has a largest element. */
  lemma {:induction false} MaxExists(ids: set<nat>)
    requires ids != {}
    ensures exists m :: m in ids && forall j :: j in ids ==> j <= m
    decreases |ids|
  {
    var x :| x in ids;
    var rest := ids - {x};
    if rest != {} {
      MaxExists(rest);
      var m :| m in rest && forall j :: j in rest ==> j <= m;
      var top := if x <= m then m else x;
      forall j | j in ids ensures j <= top {
        if j != x { assert j in rest; }
      }
    } else {
      forall j | j in ids ensures j <= x {
        assert j !in rest;
      }
    }
  }

  /** The ids of the keys that `userId` owns. */
  function OwnedIds(keys: map<nat, ApiKey>, userId: nat): set<nat> {
    set id | id in keys && keys[id].userId == userId
  }

  /** Adding a key under a fresh id adds one to its owner's count and nothing to anyone else's. */
  lemma OwnedIdsInsert(keys: map<nat, ApiKey>, id: nat, k: ApiKey, userId: nat)
    requires id !in keys
    ensures k.userId == userId ==> OwnedIds(keys[id := k], userId) == OwnedIds(keys, userId) + {id}
    ensures k.userId != userId ==> OwnedIds(keys[id := k], userId) == OwnedIds(keys, userId)
    ensures |OwnedIds(keys[id := k], userId)| == |OwnedIds(keys, userId)| + (if k.userId == userId then 1 else 0)
  {
    if k.userId == userId {
      assert OwnedIds(keys[id := k], userId) == OwnedIds(keys, userId) + {id};
    } else {
      assert OwnedIds(keys[id := k], userId) == OwnedIds(keys, userId);
    }
  }

  /** Rewriting a stored key without changing its owner changes no one's count. */
  lemma OwnedIdsPut(keys: map<nat, ApiKey>, k: ApiKey, userId: nat)
    requires k.id in keys && keys[k.id].userId == k.userId
    ensures OwnedIds(keys[k.id := k], userId) == OwnedIds(keys, userId)
  {
  }

  /** Writing a map entry twice leaves the second value. */
  lemma UpdateTwice<K, V>(m: map<K, V>, k: K, a: V, b: V)
    ensures m[k := a][k := b] == m[k := b]
  {
  }

  /** Writing back an entry's own value leaves the map as it was. */
  lemma UpdateSame<K, V>(m: map<K, V>, k: K)
    requires k in m
    ensures m[k := m[k]] == m
  {
  }

  class Store {
    var users: map<nat, User>
    var keys: map<nat, ApiKey>
    var usage: map<nat, ApiUsage>
    var logins: map<nat, LoginHistory>
    var nextUserId: nat
    var nextKeyId: nat
    var nextUsageId: nat
    var nextLoginId: nat

    /** Primary keys, unique columns and foreign keys hold. */
    ghost predicate Valid()
      reads this
    {
      && 1 <= nextUserId && 1 <= nextKeyId && 1 <= nextUsageId && 1 <= nextLoginId
      && UsersWellFormed(users, nextUserId)
      && KeysWellFormed(keys, users, nextKeyId)
      && UsageWellFormed(usage, keys, nextUsageId)
      && LoginsWellFormed(logins, users, nextLoginId)
    }

    /** An empty database; SQLite numbers rows from 1. */
    constructor ()
      ensures Valid()
      ensures users == map[] && keys == map[] && usage == map[] && logins == map[]
      ensures nextUserId == 1 && nextKeyId == 1 && nextUsageId == 1 && nextLoginId == 1
    {
      users, keys, usage, logins := map[], map[], map[], map[];
      nextUserId, nextKeyId, nextUsageId, nextLoginId := 1, 1, 1, 1;
    }

    /** `User.query.filter_by(username=name).first()` */
    method FindUserByUsername(name: string) returns (r: Option<nat>)
      ensures r.Some? ==> r.value in users && users[r.value].username == name
      ensures r.None? ==> forall id :: id in users ==> users[id].username != name
    {
      if exists id :: id in users && users[id].username == name {
        var id :| id in users && users[id].username == name;
        r := Some(id);
      } else {
        r := None;
      }
    }

    /** `User.query.filter_by(email=email).first()` */
    method FindUserByEmail(email: string) returns (r: Option<nat>)
      ensures r.Some? ==> r.value in users && users[r.value].email == email
      ensures r.None? ==> forall id :: id in users ==> users[id].email != email
    {
      if exists id :: id in users && users[id].email == email {
        var id :| id in users && users[id].email == email;
        r := Some(id);
      } else {
        r := None;
      }
    }

    /**
     * `User.query.filter((User.username == x) | (User.email == x)).first()`:
     * some user whose username or email is `x`. Two different users can
     * match (one by name, one by email); the query has no order, so which
     * one is returned is left open.
     */
    method FindUserByLogin(x: string) returns (r: Option<nat>)
      ensures r.Some? ==> r.value in users && (users[r.value].username == x || users[r.value].email == x)
      ensures r.None? ==> forall id :: id in users ==> users[id].username != x && users[id].email != x
    {
      if exists id :: id in users && (users[id].username == x || users[id].email == x) {
        var id :| id in users && (users[id].username == x || users[id].email == x);
        r := Some(id);
      } else {
        r := None;
      }
    }

    /** The stored key whose digest is `h`, if any (at most one, by the unique index). */
    ghost function KeyWithDigest(h: Digest): (r: Option<nat>)
      reads this
      ensures r.Some? ==> r.value in keys && keys[r.value].keyHash == h
      ensures r.None? <==> forall id :: id in keys ==> keys[id].keyHash != h
    {
      if exists id :: id in keys && keys[id].keyHash == h then
        var id :| id in keys && keys[id].keyHash == h; Some(id)
      else
        None
    }

    /** By the unique index, a stored key is the one key with its digest. */
    lemma KeyWithDigestOf(id: nat)
      requires Valid() && id in keys
      ensures KeyWithDigest(keys[id].keyHash) == Some(id)
    {
      var found := KeyWithDigest(keys[id].keyHash);
      assert found.Some?;
      assert keys[found.value].keyHash == keys[id].keyHash;
    }

    /** `ApiKey.query.filter_by(key_hash=h).first()` */
    method FindKeyByHash(h: Digest) returns (r: Option<nat>)
      ensures r.Some? ==> r.value in keys && keys[r.value].keyHash == h
      ensures r.None? ==> forall id :: id in keys ==> keys[id].keyHash != h
      ensures Valid() ==> r == KeyWithDigest(h)
    {
      if exists id :: id in keys && keys[id].keyHash == h {
        var id :| id in keys && keys[id].keyHash == h;
        r := Some(id);
        if Valid() {
          KeyWithDigestOf(id);
        }
      } else {
        r := None;
      }
    }

    /** Whether some key other than `except` already stores digest `h` (the unique index on key_hash). */
    method HashTaken(h: Digest, except: nat) returns (taken: bool)
      ensures taken <==> exists id :: id in keys && id != except && keys[id].keyHash == h
    {
      taken := exists id :: id in keys && id != except && keys[id].keyHash == h;
    }

    /** `ApiKey.query.filter_by(id=keyId, user_id=userId).first()`: the owner-scoped lookup. */
    function OwnedKey(keyId: nat, userId: nat): (r: Option<ApiKey>)
      reads this
      ensures r.Some? <==> keyId in keys && keys[keyId].userId == userId
      ensures r.Some? ==> r.value == keys[keyId]
    {
      if keyId in keys && keys[keyId].userId == userId then Some(keys[keyId]) else None
    }

    /** `ApiKey.query.filter_by(user_id=userId).count()`: keys of any status. */
    function KeyCount(userId: nat): (n: nat)
      reads this
      ensures n == 0 <==> forall id :: id in keys ==> keys[id].userId != userId
    {
      var ids := OwnedIds(keys, userId);
      assert ids != {} <==> exists id :: id in keys && keys[id].userId == userId by {
        if ids != {} {
          var id :| id in ids;
        }
        if exists id :: id in keys && keys[id].userId == userId {
          var id :| id in keys && keys[id].userId == userId;
          assert id in ids;
        }
      }
      |ids|
    }

    /** `ApiUsage.query.filter_by(key_id=keyId).order_by(ApiUsage.id.desc()).first()` */
    method NewestUsageOf(keyId: nat) returns (r: Option<nat>)
      ensures r.Some? ==> r.value in usage && usage[r.value].keyId == keyId
      ensures r.Some? ==> forall j :: j in usage && usage[j].keyId == keyId ==> j <= r.value
      ensures r.None? ==> forall j :: j in usage ==> usage[j].keyId != keyId
    {
      var ids := set j | j in usage && usage[j].keyId == keyId;
      if ids == {} {
        forall j | j in usage ensures usage[j].keyId != keyId {
          assert j !in ids;
        }
        r := None;
      } else {
        MaxExists(ids);
        var m :| m in ids && forall j :: j in ids ==> j <= m;
        forall j | j in usage && usage[j].keyId == keyId ensures j <= m {
          assert j in ids;
        }
        r := Some(m);
      }
    }

    /** Adds a user row under the next primary key. */
    method InsertUser(u: User) returns (id: nat)
      requires Valid()
      requires forall x :: x in users ==> users[x].username != u.username && users[x].email != u.email
      requires Lower(u.email) == u.email
      modifies this`users, this`nextUserId
      ensures Valid()
      ensures id == old(nextUserId) && id !in old(users) && nextUserId == id + 1
      ensures users == old(users)[id := u.(id := id)]
    {
      id := nextUserId;
      users := users[id := u.(id := id)];
      nextUserId := nextUserId + 1;
    }

    /** Writes back a changed user row; its id and username are those of the stored row. */
    method PutUser(u: User)
      requires Valid()
      requires u.id in users && users[u.id].username == u.username
      requires forall x :: x in users && x != u.id ==> users[x].email != u.email
      requires Lower(u.email) == u.email
      modifies this`users
      ensures Valid()
      ensures users == old(users)[u.id := u]
    {
      users := users[u.id := u];
    }

    /** Adds an api_keys row under the next primary key; its digest must be new. */
    method InsertKey(k: ApiKey) returns (id: nat)
      requires Valid()
      requires k.userId in users
      requires forall x :: x in keys ==> keys[x].keyHash != k.keyHash
      modifies this`keys, this`nextKeyId
      ensures Valid()
      ensures id == old(nextKeyId) && id !in old(keys) && nextKeyId == id + 1
      ensures keys == old(keys)[id := k.(id := id)]
      ensures KeyCount(k.userId) == old(KeyCount(k.userId)) + 1
    {
      id := nextKeyId;
      OwnedIdsInsert(keys, id, k.(id := id), k.userId);
      KeyInsert(keys, users, usage, id, nextUsageId, k.(id := id));
      keys := keys[id := k.(id := id)];
      nextKeyId := nextKeyId + 1;
    }

    /** Writes back a changed key row; id and owner are kept, and the digest stays unique. */
    method PutKey(k: ApiKey)
      requires Valid()
      requires k.id in keys && keys[k.id].userId == k.userId
      requires forall x :: x in keys && x != k.id ==> keys[x].keyHash != k.keyHash
      modifies this`keys
      ensures Valid()
      ensures keys == old(keys)[k.id := k]
      ensures forall u :: KeyCount(u) == old(KeyCount(u))
    {
      forall u ensures OwnedIds(keys[k.id := k], u) == OwnedIds(keys, u) {
        OwnedIdsPut(keys, k, u);
      }
      keys := keys[k.id := k];
    }

    /** Adds an api_usage row under the next primary key. */
    method AddUsage(keyId: nat, endpoint: string, status: UsageStatus, now: int, ip: Option<string>, agent: Option<string>)
      returns (id: nat)
      requires Valid() && keyId in keys
      modifies this`usage, this`nextUsageId
      ensures Valid()
      ensures id == old(nextUsageId) && id !in old(usage) && nextUsageId == id + 1
      ensures usage == old(usage)[id := ApiUsage(id, keyId, endpoint, now, status, ip, agent)]
      ensures forall j :: j in usage ==> j <= id
    {
      id := nextUsageId;
      usage := usage[id := ApiUsage(id, keyId, endpoint, now, status, ip, agent)];
      nextUsageId := nextUsageId + 1;
    }

    /**
     * `api_key.record_usage(endpoint, status)`: one more use and last used
     * now on the key, and one new usage row for it with no client details.
     */
    method RecordUsage(keyId: nat, endpoint: string, status: UsageStatus, now: int) returns (rowId: nat)
      requires Valid() && keyId in keys
      modifies this`keys, this`usage, this`nextUsageId
      ensures Valid()
      ensures keys == old(keys)[keyId := Touched(old(keys)[keyId], now)]
      ensures rowId == old(nextUsageId) && rowId !in old(usage) && nextUsageId == rowId + 1
      ensures usage == old(usage)[rowId := ApiUsage(rowId, keyId, endpoint, now, status, None, None)]
      ensures forall j :: j in usage ==> j <= rowId
    {
      PutKey(Touched(keys[keyId], now));
      rowId := AddUsage(keyId, endpoint, status, now, None, None);
    }

    /** Sets the client address and user agent of a usage row. */
    method SetUsageClient(rowId: nat, ip: string, agent: Option<string>)
      requires Valid() && rowId in usage
      modifies this`usage
      ensures Valid()
      ensures usage == old(usage)[rowId := old(usage)[rowId].(ipAddress := Some(ip), userAgent := agent)]
    {
      UsageRewrite(usage, keys, nextUsageId, usage[rowId].(ipAddress := Some(ip), userAgent := agent));
      usage := usage[rowId := usage[rowId].(ipAddress := Some(ip), userAgent := agent)];
    }

    /** Adds a login_history row under the next primary key. */
    method AddLogin(userId: nat, now: int, ip: string, agent: Option<string>, success: bool) returns (id: nat)
      requires Valid() && userId in users
      modifies this`logins, this`nextLoginId
      ensures Valid()
      ensures id == old(nextLoginId) && id !in old(logins) && nextLoginId == id + 1
      ensures logins == old(logins)[id := LoginHistory(id, userId, now, ip, agent, success)]
    {
      id := nextLoginId;
      logins := logins[id := LoginHistory(id, userId, now, ip, agent, success)];
      nextLoginId := nextLoginId + 1;
    }
  }
}
