/** API keys, their hash index and their rotation (kurd/api_key_management.py). Times are microseconds; each operation
    reads the clock once. SHA-256 is an injective constructor. */
module ApiKeys {
  import opened Options

  datatype Hash = Sha256(key: string)

  datatype APIKey = APIKey(keyId: string, tenant: string, name: string, createdAt: int, lastUsed: Option<int>,
                           expiresAt: Option<int>, revokedAt: Option<int>, hash: Hash, permissions: seq<string>)

  const DAY: int := 86_400_000_000

  predicate Expired(k: APIKey, now: int) {
    k.expiresAt.Some? && now > k.expiresAt.value
  }

  predicate IsValid(k: APIKey, now: int) {
    k.revokedAt.None? && !Expired(k, now)
  }

  /** What `cleanup_expired_keys` removes: expired keys that were also revoked. */
  predicate Removable(k: APIKey, now: int) {
    Expired(k, now) && k.revokedAt.Some?
  }

  function Unspent(keys: map<string, APIKey>, now: int): map<string, APIKey> {
    map id | id in keys &&
             (keys[id].revokedAt == None || keys[id].expiresAt == None || now <= keys[id].expiresAt.value) :: keys[id]
  }

  datatype Store = Store(keys: map<string, APIKey>, hashes: map<Hash, string>)

  datatype Op =
    | Generate(tenant: string, name: string, expiryDays: Option<int>, permissions: seq<string>, at: int,
               key: string, id: string)
    | Validate(key: string, at: int)
    | Rotate(key: string, name: string, at: int, newKey: string, newId: string)
    | Revoke(key: string, at: int)
    | SetPermissions(key: string, permissions: seq<string>)
    | Cleanup(at: int)

  datatype Verdict = Accepted(tenant: string) | UnknownKey | RevokedOrExpired

  // ---------------------------------------------------------------- one operation

  function Created(tenant: string, name: string, days: int, permissions: seq<string>, at: int, key: string, id: string):
      APIKey
  {
    APIKey(id, tenant, name, at, None, if days > 0 then Some(at + days * DAY) else None, None, Sha256(key),
           if permissions == [] then ["tools:call"] else permissions)
  }

  function Put(s: Store, k: APIKey): Store {
    Store(s.keys[k.keyId := k], s.hashes[k.hash := k.keyId])
  }

  /** The id the index gives for a key. */
  function Find(s: Store, key: string): Option<string> {
    if Sha256(key) in s.hashes && s.hashes[Sha256(key)] in s.keys then Some(s.hashes[Sha256(key)]) else None
  }

  function Judge(s: Store, key: string, now: int): Verdict {
    match Find(s, key)
    case None => UnknownKey
    case Some(id) => if IsValid(s.keys[id], now) then Accepted(s.keys[id].tenant) else RevokedOrExpired
  }

  function RevokeAt(s: Store, key: string, at: int): Store {
    match Find(s, key)
    case None => s
    case Some(id) => s.(keys := s.keys[id := s.keys[id].(revokedAt := Some(at))])
  }

  /** The key a rotation generates. An empty name is replaced, and so are empty permissions. */
  function Successor(days: int, k: APIKey, name: string, at: int, newKey: string, newId: string): APIKey {
    Created(k.tenant, if name == "" then k.name + " (rotated)" else name, days, k.permissions, at, newKey, newId)
  }

  function Cleaned(s: Store, now: int): Store {
    Store(map id | id in s.keys && !Removable(s.keys[id], now) :: s.keys[id],
          s.hashes - set id | id in s.keys && Removable(s.keys[id], now) :: s.keys[id].hash)
  }

  function Step(days: int, s: Store, op: Op): Store {
    match op
    case Generate(tenant, name, expiryDays, permissions, at, key, id) =>
      Put(s, Created(tenant, name, if expiryDays.Some? then expiryDays.value else days, permissions, at, key, id))
    case Validate(key, at) =>
      (match Find(s, key)
       case None => s
       case Some(id) =>
         if IsValid(s.keys[id], at) then s.(keys := s.keys[id := s.keys[id].(lastUsed := Some(at))]) else s)
    case Rotate(key, name, at, newKey, newId) =>
      if Judge(s, key, at).Accepted? then
        RevokeAt(Put(s, Successor(days, s.keys[Find(s, key).value], name, at, newKey, newId)), key, at)
      else s
    case Revoke(key, at) => RevokeAt(s, key, at)
    case SetPermissions(key, permissions) =>
      (match Find(s, key)
       case None => s
       case Some(id) => s.(keys := s.keys[id := s.keys[id].(permissions := permissions)]))
    case Cleanup(at) => Cleaned(s, at)
  }

  /** The two maps are inverse to each other. */
  ghost predicate Indexed(s: Store) {
    && (forall id | id in s.keys ::
          s.keys[id].keyId == id && s.keys[id].hash in s.hashes && s.hashes[s.keys[id].hash] == id)
    && (forall h | h in s.hashes :: s.hashes[h] in s.keys && s.keys[s.hashes[h]].hash == h)
  }

  /** The index leads to a stored key from every hash it knows: enough for every lookup, and kept even when a random id
      or key comes up twice. */
  ghost predicate Linked(s: Store) {
    forall h | h in s.hashes :: s.hashes[h] in s.keys
  }

  class APIKeyManager {
    const keyExpiryDays: int
    var keys: map<string, APIKey>
    var keyHashes: map<Hash, string>

    function State(): Store
      reads this
    {
      Store(keys, keyHashes)
    }

    ghost predicate Valid()
      reads this
    {
      Indexed(State())
    }

    constructor (keyExpiryDays: int)
      ensures Valid() && State() == Store(map[], map[]) && this.keyExpiryDays == keyExpiryDays
    {
      this.keyExpiryDays := keyExpiryDays;
      keys, keyHashes := map[], map[];
    }

    /** `key` and `id` are the random values of the source, which overwrites what it finds under them. */
    method GenerateKey(tenant: string, name: string, expiryDays: Option<int>, permissions: seq<string>, now: int,
                       key: string, id: string)
      requires Linked(State())
      modifies this
      ensures Linked(State())
      ensures State() == Step(keyExpiryDays, old(State()),
                              Generate(tenant, name, expiryDays, permissions, now, key, id))
      ensures old(Valid()) ==> (Valid() <==> NewOrPaired(old(State()), key, id))
      ensures var days := if expiryDays.None? then keyExpiryDays else expiryDays.value;
              && keys == old(keys)[id := APIKey(id, tenant, name, now, None, ExpiryOf(days, now), None, Sha256(key),
                                                if permissions == [] then ["tools:call"] else permissions)]
              && keyHashes == old(keyHashes)[Sha256(key) := id]
    {
      var days := if expiryDays.None? then keyExpiryDays else expiryDays.value;
      var expiresAt := if days > 0 then Some(now + days * DAY) else None;
      var apiKey := APIKey(id, tenant, name, now, None, expiresAt, None, Sha256(key),
                           if permissions == [] then ["tools:call"] else permissions);
      if Valid() {
        PutKeepsIndexExactly(State(), apiKey);
      }
      keys := keys[id := apiKey];
      keyHashes := keyHashes[Sha256(key) := id];
    }

    method ValidateKey(key: string, now: int) returns (verdict: Verdict)
      requires Linked(State())
      modifies this`keys
      ensures Linked(State()) && (old(Valid()) ==> Valid())
      ensures verdict == Judge(old(State()), key, now)
      ensures keys == match old(Find(State(), key))
                      case Some(id) =>
                        if verdict.Accepted? then old(keys)[id := old(keys)[id].(lastUsed := Some(now))] else old(keys)
                      case None => old(keys)
      ensures State() == Step(keyExpiryDays, old(State()), Validate(key, now))
    {
      if Sha256(key) !in keyHashes {
        return UnknownKey;
      }
      var keyId := keyHashes[Sha256(key)];
      var apiKey := keys[keyId];
      if !IsValid(apiKey, now) {
        return RevokedOrExpired;
      }
      keys := keys[keyId := apiKey.(lastUsed := Some(now))];
      return Accepted(apiKey.tenant);
    }

    method RevokeKey(key: string, now: int) returns (found: bool)
      requires Linked(State())
      modifies this`keys
      ensures Linked(State()) && (old(Valid()) ==> Valid())
      ensures found <==> Find(old(State()), key).Some?
      ensures State() == Step(keyExpiryDays, old(State()), Revoke(key, now))
      ensures keys == match old(Find(State(), key))
                      case Some(id) => old(keys)[id := old(keys)[id].(revokedAt := Some(now))]
                      case None => old(keys)
    {
      if Sha256(key) !in keyHashes {
        return false;
      }
      var keyId := keyHashes[Sha256(key)];
      keys := keys[keyId := keys[keyId].(revokedAt := Some(now))];
      return true;
    }

    /** The new key, or none when the old one is unknown, revoked or expired. */
    method RotateKey(oldKey: string, name: string, now: int, newKey: string, newId: string)
        returns (rotated: Option<string>)
      requires Linked(State())
      modifies this
      ensures Linked(State())
      ensures old(Valid()) && NewOrPaired(old(State()), newKey, newId) ==> Valid()
      ensures rotated == if Judge(old(State()), oldKey, now).Accepted? then Some(newKey) else None
      ensures State() == Step(keyExpiryDays, old(State()), Rotate(oldKey, name, now, newKey, newId))
    {
      if Sha256(oldKey) !in keyHashes {
        return None;
      }
      var oldApiKey := keys[keyHashes[Sha256(oldKey)]];
      if !IsValid(oldApiKey, now) {
        return None;
      }
      GenerateKey(oldApiKey.tenant, if name == "" then oldApiKey.name + " (rotated)" else name, Some(keyExpiryDays),
                  oldApiKey.permissions, now, newKey, newId);
      var _ := RevokeKey(oldKey, now);
      return Some(newKey);
    }

    method SetKeyPermissions(key: string, permissions: seq<string>) returns (found: bool)
      requires Linked(State())
      modifies this`keys
      ensures Linked(State()) && (old(Valid()) ==> Valid())
      ensures found <==> Find(old(State()), key).Some?
      ensures State() == Step(keyExpiryDays, old(State()), SetPermissions(key, permissions))
      ensures keys == match old(Find(State(), key))
                      case Some(id) => old(keys)[id := old(keys)[id].(permissions := permissions)]
                      case None => old(keys)
    {
      if Sha256(key) !in keyHashes {
        return false;
      }
      var keyId := keyHashes[Sha256(key)];
      keys := keys[keyId := keys[keyId].(permissions := permissions)];
      return true;
    }

    method CleanupExpiredKeys(now: int) returns (count: nat)
      requires Valid()
      modifies this
      ensures Valid()
      ensures State() == Step(keyExpiryDays, old(State()), Cleanup(now))
      ensures count == |old(keys)| - |keys|
      ensures keys == Unspent(old(keys), now)
    {
      ghost var before := State();
      var keysToRemove := ExpiredEntries(keys, now);
      WithoutAll(before, now, keysToRemove);
      DeleteEntries(keysToRemove);
      CleanupKeepsIndex(before, now);
      CleanedExactly(before, now);
      return |keysToRemove|;
    }

    /** The second loop of the cleanup. */
    method DeleteEntries(pairs: seq<(string, Hash)>)
      requires Deletable(State(), pairs)
      modifies this
      ensures State() == Without(old(State()), pairs, |pairs|)
    {
      for i := 0 to |pairs|
        invariant State() == Without(old(State()), pairs, i)
      {
        var (keyId, keyHash) := pairs[i];
        assert keyId in keys && keyHash in keyHashes;
        keys := keys - {keyId};
        keyHashes := keyHashes - {keyHash};
      }
    }
  }

  /** No deletion misses its entries. */
  ghost predicate Deletable(s: Store, pairs: seq<(string, Hash)>) {
    forall i | 0 <= i < |pairs| :: pairs[i].0 in Without(s, pairs, i).keys && pairs[i].1 in Without(s, pairs, i).hashes
  }

  /** The store after the second loop of the cleanup has deleted the first n entries. */
  function Without(s: Store, pairs: seq<(string, Hash)>, n: nat): Store
    requires n <= |pairs|
  {
    if n == 0 then s else
      var before := Without(s, pairs, n - 1);
      Store(before.keys - {pairs[n - 1].0}, before.hashes - {pairs[n - 1].1})
  }

  /** The first loop of the cleanup. */
  method ExpiredEntries(keys: map<string, APIKey>, now: int) returns (pairs: seq<(string, Hash)>)
    ensures Listed(keys, keys.Keys, now, pairs)
  {
    pairs := [];
    var todo := keys.Keys;
    while todo != {}
      invariant todo <= keys.Keys
      invariant Listed(keys, keys.Keys - todo, now, pairs)
    {
      var keyId :| keyId in todo;
      ListNext(keys, keys.Keys - todo, now, pairs, keyId);
      if Removable(keys[keyId], now) {
        pairs := pairs + [(keyId, keys[keyId].hash)];
      }
      assert keys.Keys - todo + {keyId} == keys.Keys - (todo - {keyId});
      todo := todo - {keyId};
    }
    assert keys.Keys - todo == keys.Keys;
  }

  function FirstIds(pairs: seq<(string, Hash)>, n: nat): set<string>
    requires n <= |pairs|
  {
    set i | 0 <= i < n :: pairs[i].0
  }

  function FirstHashes(pairs: seq<(string, Hash)>, n: nat): set<Hash>
    requires n <= |pairs|
  {
    set i | 0 <= i < n :: pairs[i].1
  }

  /** The list holds each removable key among `seen` once, with its hash. */
  ghost predicate Listed(keys: map<string, APIKey>, seen: set<string>, now: int, pairs: seq<(string, Hash)>) {
    && (forall i | 0 <= i < |pairs| ::
          && pairs[i].0 in seen && pairs[i].0 in keys
          && Removable(keys[pairs[i].0], now) && pairs[i].1 == keys[pairs[i].0].hash)
    && (forall i, j | 0 <= i < j < |pairs| :: pairs[i].0 != pairs[j].0)
    && (forall id | id in seen && id in keys && Removable(keys[id], now) ::
          exists i :: 0 <= i < |pairs| && pairs[i].0 == id)
  }

  lemma {:induction false} ListNext(keys: map<string, APIKey>, seen: set<string>, now: int, pairs: seq<(string, Hash)>,
                                    id: string)
    requires Listed(keys, seen, now, pairs) && id in keys && id !in seen
    ensures Listed(keys, seen + {id}, now,
                   if Removable(keys[id], now) then pairs + [(id, keys[id].hash)] else pairs)
  {
    var next := if Removable(keys[id], now) then pairs + [(id, keys[id].hash)] else pairs;
    forall other | other in seen + {id} && other in keys && Removable(keys[other], now)
      ensures exists i :: 0 <= i < |next| && next[i].0 == other
    {
      if other == id {
        assert next[|pairs|].0 == other;
      } else {
        var i :| 0 <= i < |pairs| && pairs[i].0 == other;
        assert next[i].0 == other;
      }
    }
  }

  lemma {:induction false} WithoutFirst(s: Store, pairs: seq<(string, Hash)>, n: nat)
    requires n <= |pairs|
    ensures Without(s, pairs, n) == Store(s.keys - FirstIds(pairs, n), s.hashes - FirstHashes(pairs, n))
  {
    if n == 0 {
    } else {
      WithoutFirst(s, pairs, n - 1);
      assert FirstIds(pairs, n) == FirstIds(pairs, n - 1) + {pairs[n - 1].0};
      assert FirstHashes(pairs, n) == FirstHashes(pairs, n - 1) + {pairs[n - 1].1};
      MinusTwice(s.keys, FirstIds(pairs, n - 1), pairs[n - 1].0);
      MinusTwice(s.hashes, FirstHashes(pairs, n - 1), pairs[n - 1].1);
    }
  }

  lemma {:induction false} MinusTwice<K, V>(m: map<K, V>, ks: set<K>, k: K)
    ensures m - ks - {k} == m - (ks + {k})
  {
  }

  lemma {:induction false} OneMoreId(pairs: seq<(string, Hash)>, n: nat)
    requires 0 < n <= |pairs| && forall i, j | 0 <= i < j < n :: pairs[i].0 != pairs[j].0
    ensures FirstIds(pairs, n) == FirstIds(pairs, n - 1) + {pairs[n - 1].0}
    ensures pairs[n - 1].0 !in FirstIds(pairs, n - 1)
  {
  }

  lemma {:induction false} DistinctIds(pairs: seq<(string, Hash)>, n: nat)
    requires n <= |pairs| && forall i, j | 0 <= i < j < n :: pairs[i].0 != pairs[j].0
    ensures |FirstIds(pairs, n)| == n
  {
    if n == 0 {
    } else {
      DistinctIds(pairs, n - 1);
      OneMoreId(pairs, n);
    }
  }

  lemma {:induction false} FewerBy<V>(m: map<string, V>, ids: set<string>)
    requires ids <= m.Keys
    ensures |m - ids| == |m| - |ids|
  {
    assert (m - ids).Keys + ids == m.Keys;
  }

  lemma {:induction false} StillThere(s: Store, now: int, pairs: seq<(string, Hash)>, n: nat)
    requires n < |pairs| && Indexed(s) && Listed(s.keys, s.keys.Keys, now, pairs)
    ensures pairs[n].0 in s.keys && pairs[n].0 !in FirstIds(pairs, n)
    ensures pairs[n].1 in s.hashes && pairs[n].1 !in FirstHashes(pairs, n)
  {
    forall i | 0 <= i < n
      ensures pairs[i].1 != pairs[n].1
    {
      assert s.hashes[pairs[i].1] == pairs[i].0 != pairs[n].0;
    }
  }

  lemma {:induction false} WithoutAll(s: Store, now: int, pairs: seq<(string, Hash)>)
    requires Indexed(s) && Listed(s.keys, s.keys.Keys, now, pairs)
    ensures Deletable(s, pairs)
    ensures Without(s, pairs, |pairs|) == Cleaned(s, now) && |pairs| == |s.keys| - |Cleaned(s, now).keys|
  {
    forall i | 0 <= i < |pairs|
      ensures pairs[i].0 in Without(s, pairs, i).keys && pairs[i].1 in Without(s, pairs, i).hashes
    {
      WithoutFirst(s, pairs, i);
      StillThere(s, now, pairs, i);
    }
    WithoutFirst(s, pairs, |pairs|);
    FewerBy(s.keys, FirstIds(pairs, |pairs|));
    DistinctIds(pairs, |pairs|);
    RemovedAll(s, now, pairs);
  }

  lemma {:induction false} RemovedAll(s: Store, now: int, pairs: seq<(string, Hash)>)
    requires Listed(s.keys, s.keys.Keys, now, pairs)
    ensures Store(s.keys - FirstIds(pairs, |pairs|), s.hashes - FirstHashes(pairs, |pairs|)) == Cleaned(s, now)
  {
    var ids := set id | id in s.keys && Removable(s.keys[id], now);
    var hashes := set id | id in s.keys && Removable(s.keys[id], now) :: s.keys[id].hash;
    assert FirstIds(pairs, |pairs|) == ids;
    forall h | h in hashes
      ensures h in FirstHashes(pairs, |pairs|)
    {
      var id :| id in s.keys && Removable(s.keys[id], now) && s.keys[id].hash == h;
      var i :| 0 <= i < |pairs| && pairs[i].0 == id;
      assert pairs[i].1 == h;
    }
    assert FirstHashes(pairs, |pairs|) == hashes;
    assert s.keys - ids == Cleaned(s, now).keys;
  }

  // ---------------------------------------------------------------- the index

  predicate NewOrPaired(s: Store, key: string, id: string) {
    if id in s.keys then s.keys[id].hash == Sha256(key) else Sha256(key) !in s.hashes
  }

  /** Generating a key keeps the maps inverse exactly when its id and its hash are both new or already belong
      together. */
  lemma {:induction false} GenerateKeepsIndexExactly(days: int, s: Store, op: Op)
    requires Indexed(s) && op.Generate?
    ensures Indexed(Step(days, s, op)) <==> NewOrPaired(s, op.key, op.id)
  {
    PutKeepsIndexExactly(s, Created(op.tenant, op.name, if op.expiryDays.Some? then op.expiryDays.value else days,
                                    op.permissions, op.at, op.key, op.id));
  }

  lemma {:induction false} PutKeepsIndexExactly(s: Store, k: APIKey)
    requires Indexed(s)
    ensures Indexed(Put(s, k)) <==> NewOrPaired(s, k.hash.key, k.keyId)
  {
    var s' := Put(s, k);
    if k.keyId in s.keys && s.keys[k.keyId].hash != k.hash {
      assert s'.hashes[s.keys[k.keyId].hash] == k.keyId;
    } else if k.keyId !in s.keys && k.hash in s.hashes {
      assert s'.keys[s.hashes[k.hash]].hash == k.hash;
    }
  }

  lemma {:induction false} RevokeKeepsIndex(s: Store, key: string, at: int)
    requires Indexed(s)
    ensures Indexed(RevokeAt(s, key, at))
  {
  }

  /** What a cleanup leaves: the keys that are not both revoked and past their expiry. */
  lemma {:induction false} CleanedExactly(s: Store, now: int)
    ensures Cleaned(s, now).keys == Unspent(s.keys, now)
  {
  }

  lemma {:induction false} CleanupKeepsIndex(s: Store, now: int)
    requires Indexed(s)
    ensures Indexed(Cleaned(s, now))
  {
    var s' := Cleaned(s, now);
    forall id | id in s'.keys
      ensures s'.keys[id].hash in s'.hashes
    {
      var h := s'.keys[id].hash;
      forall other | other in s.keys && Removable(s.keys[other], now)
        ensures s.keys[other].hash != h
      {
        assert s.hashes[s.keys[other].hash] == other;
      }
    }
  }

  /** The random id and key of an operation are not in the store. */
  predicate FreshOp(s: Store, op: Op) {
    match op
    case Generate(_, _, _, _, _, key, id) => id !in s.keys && Sha256(key) !in s.hashes
    case Rotate(_, _, _, newKey, newId) => newId !in s.keys && Sha256(newKey) !in s.hashes
    case _ => true
  }

  lemma {:induction false} StepKeepsIndex(days: int, s: Store, op: Op)
    requires Indexed(s) && FreshOp(s, op)
    ensures Indexed(Step(days, s, op))
  {
    match op
    case Generate(tenant, name, expiryDays, permissions, at, key, id) =>
      GenerateKeepsIndexExactly(days, s, op);
    case Rotate(key, name, at, newKey, newId) =>
      if Judge(s, key, at).Accepted? {
        var successor := Successor(days, s.keys[Find(s, key).value], name, at, newKey, newId);
        PutKeepsIndexExactly(s, successor);
        RevokeKeepsIndex(Put(s, successor), key, at);
      }
    case Cleanup(at) => CleanupKeepsIndex(s, at);
    case _ =>
  }

  // ---------------------------------------------------------------- runs and lineages

  /** `lineage` gives each id the position of the operation that generated the first key of its rotations. */
  datatype Trace = Trace(store: Store, lineage: map<string, nat>)

  function Lineage(s: Store, lineage: map<string, nat>, op: Op, position: nat): map<string, nat> {
    match op
    case Generate(_, _, _, _, _, _, id) => lineage[id := position]
    case Rotate(key, _, at, _, newId) =>
      if Judge(s, key, at).Accepted? && Find(s, key).value in lineage then lineage[newId := lineage[Find(s, key).value]]
      else lineage
    case _ => lineage
  }

  function Run(days: int, ops: seq<Op>): Trace {
    if ops == [] then Trace(Store(map[], map[]), map[]) else
      var t, op := Run(days, ops[..|ops| - 1]), ops[|ops| - 1];
      Trace(Step(days, t.store, op), Lineage(t.store, t.lineage, op, |ops| - 1))
  }

  ghost predicate FreshRun(days: int, ops: seq<Op>) {
    ops == [] || (FreshRun(days, ops[..|ops| - 1]) && FreshOp(Run(days, ops[..|ops| - 1]).store, ops[|ops| - 1]))
  }

  /** In every run whose random ids and keys are fresh, the two maps stay inverse. */
  lemma {:induction false} IndexStaysInverse(days: int, ops: seq<Op>)
    requires FreshRun(days, ops)
    ensures Indexed(Run(days, ops).store)
  {
    if ops == [] {
    } else {
      IndexStaysInverse(days, ops[..|ops| - 1]);
      StepKeepsIndex(days, Run(days, ops[..|ops| - 1]).store, ops[|ops| - 1]);
    }
  }

  ghost predicate Matches(s: Store, id: string, key: string) {
    id in s.keys && s.keys[id].hash == Sha256(key)
  }

  /** Looking a key up through the index is a scan of all the keys for its hash. */
  lemma {:induction false} ValidateIsAScan(days: int, ops: seq<Op>, key: string, now: int, tenant: string)
    requires FreshRun(days, ops)
    ensures var s := Run(days, ops).store;
            && (Judge(s, key, now) == Accepted(tenant) <==>
                exists id :: Matches(s, id, key) && IsValid(s.keys[id], now) && s.keys[id].tenant == tenant)
            && (Judge(s, key, now) == RevokedOrExpired <==>
                exists id :: Matches(s, id, key) && !IsValid(s.keys[id], now))
            && (Judge(s, key, now) == UnknownKey <==> !exists id :: Matches(s, id, key))
            && (forall a, b | Matches(s, a, key) && Matches(s, b, key) :: a == b)
  {
    IndexStaysInverse(days, ops);
    var s := Run(days, ops).store;
    if Find(s, key).Some? {
      assert Matches(s, Find(s, key).value, key);
    }
  }

  ghost predicate Unrevoked(s: Store, id: string) {
    id in s.keys && s.keys[id].revokedAt.None?
  }

  ghost predicate LineagesOk(t: Trace) {
    && (forall id | id in t.store.keys :: id in t.lineage)
    && (forall a, b | Unrevoked(t.store, a) && Unrevoked(t.store, b) && t.lineage[a] == t.lineage[b] :: a == b)
  }

  ghost predicate TenantsOk(t: Trace, ops: seq<Op>) {
    forall id | id in t.store.keys ::
      && id in t.lineage && t.lineage[id] < |ops|
      && ops[t.lineage[id]].Generate? && ops[t.lineage[id]].tenant == t.store.keys[id].tenant
  }

  /** Only a generated key can be unrevoked after an operation without having been so before. */
  lemma {:induction false} StepUnrevoked(days: int, s: Store, op: Op, id: string)
    requires Indexed(s) && FreshOp(s, op) && Unrevoked(Step(days, s, op), id)
    ensures match op
            case Generate(_, _, _, _, _, _, newId) => id == newId || Unrevoked(s, id)
            case Rotate(key, _, at, _, newId) =>
              if Judge(s, key, at).Accepted? then id == newId || (Unrevoked(s, id) && id != Find(s, key).value)
              else Unrevoked(s, id)
            case _ => Unrevoked(s, id)
  {
  }

  /** The operation that gives a key its tenant: one that generates or rotates it, or an earlier one. */
  lemma {:induction false} StepTenant(days: int, s: Store, op: Op, id: string)
    requires Indexed(s) && FreshOp(s, op) && id in Step(days, s, op).keys
    ensures var tenant := Step(days, s, op).keys[id].tenant;
            if op.Generate? && id == op.id then tenant == op.tenant
            else if op.Rotate? && id == op.newId then
              Judge(s, op.key, op.at).Accepted? && tenant == s.keys[Find(s, op.key).value].tenant
            else id in s.keys && tenant == s.keys[id].tenant
  {
  }

  lemma {:induction false} StepKeepsTenants(days: int, t: Trace, ops: seq<Op>, op: Op)
    requires Indexed(t.store) && FreshOp(t.store, op) && TenantsOk(t, ops)
    ensures TenantsOk(Trace(Step(days, t.store, op), Lineage(t.store, t.lineage, op, |ops|)), ops + [op])
  {
    var s' := Step(days, t.store, op);
    forall id | id in s'.keys
      ensures var lineage := Lineage(t.store, t.lineage, op, |ops|);
              id in lineage && lineage[id] <= |ops| && (ops + [op])[lineage[id]].Generate? &&
              (ops + [op])[lineage[id]].tenant == s'.keys[id].tenant
    {
      StepTenant(days, t.store, op, id);
    }
  }

  lemma {:induction false} StepKeepsLineages(days: int, t: Trace, ops: seq<Op>, op: Op)
    requires Indexed(t.store) && FreshOp(t.store, op) && LineagesOk(t) && TenantsOk(t, ops)
    ensures LineagesOk(Trace(Step(days, t.store, op), Lineage(t.store, t.lineage, op, |ops|)))
  {
    var s', lineage := Step(days, t.store, op), Lineage(t.store, t.lineage, op, |ops|);
    StepKeepsTenants(days, t, ops, op);
    forall a, b | Unrevoked(s', a) && Unrevoked(s', b) && lineage[a] == lineage[b]
      ensures a == b
    {
      StepUnrevoked(days, t.store, op, a);
      StepUnrevoked(days, t.store, op, b);
    }
  }

  lemma {:induction false} LineagesHold(days: int, ops: seq<Op>)
    requires FreshRun(days, ops)
    ensures LineagesOk(Run(days, ops)) && TenantsOk(Run(days, ops), ops)
  {
    if ops == [] {
    } else {
      var init, op := ops[..|ops| - 1], ops[|ops| - 1];
      LineagesHold(days, init);
      IndexStaysInverse(days, init);
      StepKeepsLineages(days, Run(days, init), init, op);
      StepKeepsTenants(days, Run(days, init), init, op);
      assert init + [op] == ops;
    }
  }

  ghost predicate ValidId(t: Trace, id: string, now: int) {
    id in t.store.keys && id in t.lineage && IsValid(t.store.keys[id], now)
  }

  /** In every run each rotation lineage has at most one valid key at any moment, and each of its keys belongs to the
      tenant the first one was generated for. */
  lemma {:induction false} OneValidKeyPerLineage(days: int, ops: seq<Op>, a: string, b: string, now: int)
    requires FreshRun(days, ops)
    ensures var t := Run(days, ops);
            && (a in t.store.keys ==>
                  && a in t.lineage && t.lineage[a] < |ops| && ops[t.lineage[a]].Generate?
                  && t.store.keys[a].tenant == ops[t.lineage[a]].tenant)
            && (ValidId(t, a, now) && ValidId(t, b, now) && t.lineage[a] == t.lineage[b] ==> a == b)
  {
    LineagesHold(days, ops);
    var t := Run(days, ops);
    assert forall id | ValidId(t, id, now) :: Unrevoked(t.store, id);
  }

  /** A rotation hands the tenant over from the old key to the new one and changes no other answer. */
  lemma {:induction false} RotateHandsOver(days: int, s: Store, op: Op, other: string, now: int)
    requires op.Rotate? && Indexed(s) && FreshOp(s, op) && Judge(s, op.key, op.at).Accepted?
    ensures var s' := Step(days, s, op);
            && Judge(s', op.newKey, op.at) == Judge(s, op.key, op.at)
            && Judge(s', op.key, now) == RevokedOrExpired
            && (other != op.key && other != op.newKey ==> Judge(s', other, now) == Judge(s, other, now))
  {
  }

  /** The record of the new key, field by field. */
  lemma {:induction false} RotatedRecord(days: int, s: Store, op: Op)
    requires op.Rotate? && Indexed(s) && FreshOp(s, op) && Judge(s, op.key, op.at).Accepted?
    ensures var k, after := s.keys[Find(s, op.key).value], Step(days, s, op).keys;
            && op.newId in after
            && after[op.newId] ==
               APIKey(op.newId, k.tenant, if op.name == "" then k.name + " (rotated)" else op.name, op.at, None,
                      ExpiryOf(days, op.at), None, Sha256(op.newKey),
                      if k.permissions == [] then ["tools:call"] else k.permissions)
  {
  }

  /** The new key has the old one's permissions exactly when there were any: rotating away an empty list grants the
      default permission. */
  lemma {:induction false} RotateKeepsPermissionsExactly(days: int, s: Store, op: Op)
    requires op.Rotate? && Indexed(s) && FreshOp(s, op) && Judge(s, op.key, op.at).Accepted?
    ensures var before, after := s.keys[Find(s, op.key).value], Step(days, s, op).keys;
            op.newId in after && (after[op.newId].permissions == before.permissions <==> before.permissions != [])
  {
  }

  // ---------------------------------------------------------------- one key, from its own operations

  /** What has become of a key, without ids and maps. */
  datatype Life = Unknown | Alive(tenant: string, expires: Option<int>) | Dead(expires: Option<int>)

  function ExpiryOf(days: int, at: int): Option<int> {
    if days > 0 then Some(at + days * 86_400_000_000) else None
  }

  predicate Works(l: Life, now: int) {
    l.Alive? && (l.expires.None? || now <= l.expires.value)
  }

  /** `rotated` is the life of the key that a rotation names. */
  function NextLife(days: int, l: Life, rotated: Life, op: Op, key: string): Life {
    match op
    case Generate(tenant, _, expiryDays, _, at, k, _) =>
      if k == key then Alive(tenant, ExpiryOf(if expiryDays.None? then days else expiryDays.value, at)) else l
    case Rotate(k, _, at, newKey, _) =>
      if !Works(rotated, at) then l
      else if newKey == key then Alive(rotated.tenant, ExpiryOf(days, at))
      else if k == key then Dead(rotated.expires)
      else l
    case Revoke(k, _) => if k == key && l.Alive? then Dead(l.expires) else l
    case Cleanup(at) => if l.Dead? && l.expires.Some? && at > l.expires.value then Unknown else l
    case _ => l
  }

  function LifeOf(days: int, ops: seq<Op>, key: string): Life
    decreases |ops|
  {
    if ops == [] then Unknown else
      var init, op := ops[..|ops| - 1], ops[|ops| - 1];
      NextLife(days, LifeOf(days, init, key), if op.Rotate? then LifeOf(days, init, op.key) else Unknown, op, key)
  }

  ghost predicate Lives(s: Store, key: string, l: Life) {
    match Find(s, key)
    case None => l == Unknown
    case Some(id) =>
      var k := s.keys[id];
      l == if k.revokedAt.None? then Alive(k.tenant, k.expiresAt) else Dead(k.expiresAt)
  }

  lemma {:induction false} LivesAfterPut(s: Store, k: APIKey, key: string, l: Life)
    requires Indexed(s) && Lives(s, key, l) && k.keyId !in s.keys && k.hash !in s.hashes && k.revokedAt.None?
    ensures Lives(Put(s, k), key, if k.hash == Sha256(key) then Alive(k.tenant, k.expiresAt) else l)
  {
  }

  lemma {:induction false} LivesAfterRevoke(s: Store, key: string, at: int, other: string, l: Life)
    requires Indexed(s) && Lives(s, other, l)
    ensures Lives(RevokeAt(s, key, at), other, if key == other && l.Alive? then Dead(l.expires) else l)
  {
  }

  lemma {:induction false} LivesAfterCleanup(s: Store, now: int, key: string, l: Life)
    requires Indexed(s) && Lives(s, key, l)
    ensures Lives(Cleaned(s, now), key,
                  if l.Dead? && l.expires.Some? && now > l.expires.value then Unknown else l)
  {
    CleanupKeepsIndex(s, now);
    if Find(s, key).Some? {
      var id := Find(s, key).value;
      assert forall other | other in s.keys && s.keys[other].hash == Sha256(key) :: other == id;
    }
  }

  lemma {:induction false} LivesAfterRotate(days: int, s: Store, op: Op, key: string, l: Life, rotated: Life)
    requires op.Rotate? && Indexed(s) && FreshOp(s, op) && Lives(s, key, l) && Lives(s, op.key, rotated)
    ensures Lives(Step(days, s, op), key, NextLife(days, l, rotated, op, key))
  {
    assert Judge(s, op.key, op.at).Accepted? == Works(rotated, op.at);
    if Works(rotated, op.at) {
      var k := Successor(days, s.keys[Find(s, op.key).value], op.name, op.at, op.newKey, op.newId);
      LivesAfterPut(s, k, key, l);
      PutKeepsIndexExactly(s, k);
      LivesAfterRevoke(Put(s, k), op.key, op.at, key,
                       if k.hash == Sha256(key) then Alive(k.tenant, k.expiresAt) else l);
    }
  }

  lemma {:induction false} NextLifeIsStep(days: int, s: Store, op: Op, key: string, l: Life, rotated: Life)
    requires Indexed(s) && FreshOp(s, op) && Lives(s, key, l) && (op.Rotate? ==> Lives(s, op.key, rotated))
    ensures Lives(Step(days, s, op), key, NextLife(days, l, rotated, op, key))
  {
    match op
    case Generate(tenant, name, expiryDays, permissions, at, k, id) =>
      var validDays := if expiryDays.Some? then expiryDays.value else days;
      LivesAfterPut(s, Created(tenant, name, validDays, permissions, at, k, id), key, l);
    case Validate(_, _) =>
    case Rotate(_, _, _, _, _) => LivesAfterRotate(days, s, op, key, l, rotated);
    case Revoke(k, at) => LivesAfterRevoke(s, k, at, key, l);
    case SetPermissions(_, _) =>
    case Cleanup(at) => LivesAfterCleanup(s, at, key, l);
  }

  lemma {:induction false} KeyIsItsLife(days: int, ops: seq<Op>, key: string)
    requires FreshRun(days, ops)
    ensures Lives(Run(days, ops).store, key, LifeOf(days, ops, key))
    decreases |ops|
  {
    if ops == [] {
    } else {
      var init, op := ops[..|ops| - 1], ops[|ops| - 1];
      KeyIsItsLife(days, init, key);
      IndexStaysInverse(days, init);
      if op.Rotate? {
        KeyIsItsLife(days, init, op.key);
      }
      NextLifeIsStep(days, Run(days, init).store, op, key, LifeOf(days, init, key),
                     if op.Rotate? then LifeOf(days, init, op.key) else Unknown);
    }
  }

  /** In every run with new random values the verdict on a key is what its own operations made of it: accepted for its
      tenant from generation or rotation to revocation, rotation or expiry, refused after that, and unknown before, and
      again once it has been cleaned up. */
  lemma {:induction false} VerdictIsItsLife(days: int, ops: seq<Op>, key: string, now: int)
    requires FreshRun(days, ops)
    ensures var l := LifeOf(days, ops, key);
            Judge(Run(days, ops).store, key, now) ==
            if l.Unknown? then UnknownKey else if Works(l, now) then Accepted(l.tenant) else RevokedOrExpired
  {
    KeyIsItsLife(days, ops, key);
  }

  // ---------------------------------------------------------------- a refused key stays refused

  /** The operation does not draw this key as its random one. */
  predicate Spares(op: Op, key: string) {
    !(op.Generate? && op.key == key) && !(op.Rotate? && op.newKey == key)
  }

  lemma {:induction false} StepKeepsRefusal(days: int, s: Store, op: Op, key: string, now: int)
    requires Indexed(s) && FreshOp(s, op) && Spares(op, key) && !Judge(s, key, now).Accepted?
    ensures !Judge(Step(days, s, op), key, now).Accepted?
  {
  }

  function RunFrom(days: int, s: Store, ops: seq<Op>): Store
    decreases |ops|
  {
    if ops == [] then s else RunFrom(days, Step(days, s, ops[0]), ops[1..])
  }

  ghost predicate FreshFrom(days: int, s: Store, ops: seq<Op>)
    decreases |ops|
  {
    ops == [] || (FreshOp(s, ops[0]) && FreshFrom(days, Step(days, s, ops[0]), ops[1..]))
  }

  /** A key that is revoked, expired or unknown at one moment is never accepted at a later one. */
  lemma {:induction false} RefusedForever(days: int, s: Store, ops: seq<Op>, key: string, now: int, later: int)
    requires Indexed(s) && FreshFrom(days, s, ops) && now <= later && !Judge(s, key, now).Accepted?
    requires forall op | op in ops :: Spares(op, key)
    ensures !Judge(RunFrom(days, s, ops), key, later).Accepted?
    decreases |ops|
  {
    if ops == [] {
    } else {
      StepKeepsIndex(days, s, ops[0]);
      StepKeepsRefusal(days, s, ops[0], key, now);
      RefusedForever(days, Step(days, s, ops[0]), ops[1..], key, now, later);
    }
  }
}
