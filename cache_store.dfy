/**
 * The per-key store behind the distributed cache facade.
 *
 * The store itself (the per-key entries and the store manager) is not part
 * of this model; it is represented by a map from key to the latest version
 * record.  Its compare-and-put is assumed here to behave as follows: the
 * NULL hash matches only an absent value, the ANY hash matches every record,
 * and the answer is the hash the record had before the call (never null).
 * On top of that map this module states how the facade turns those answers
 * into booleans.
 */
module CacheStore {
  import opened Wrappers

  /** Cache keys and values are opaque objects compared by `equals`. */
  datatype Key = Key(id: nat)
  datatype Value = Value(id: nat)

  /** A value hash, with the two sentinels of the version records. */
  datatype Hash = NullHash | AnyHash | Digest(digest: nat)

  /** The latest version record of one key; `value == None` is a deletion record. */
  datatype Record = Record(value: Option<Value>, hash: Hash, version: nat)

  type Store = map<Key, Record>

  /** The hash function that the store manager applies to serialized values. */
  type Hasher = Value -> nat

  /** A record's hash is the digest of its value, or the NULL hash for a deletion. */
  predicate WellFormedRecord(r: Record, hasher: Hasher)
  {
    match r.value
    case None => r.hash == NullHash
    case Some(v) => r.hash == Digest(hasher(v))
  }

  predicate WellFormed(s: Store, hasher: Hasher)
  {
    forall k :: k in s ==> WellFormedRecord(s[k], hasher)
  }

  /** The current value of a key, `None` when absent or deleted. */
  function Lookup(s: Store, k: Key): Option<Value>
  {
    if k in s then s[k].value else None
  }

  /** The current value hash of a key; the NULL hash when absent or deleted. */
  function CurrentHash(s: Store, k: Key): Hash
  {
    if k in s then s[k].hash else NullHash
  }

  /** The current version of a key, `0` when it was never written. */
  function VersionOf(s: Store, k: Key): nat
  {
    if k in s then s[k].version else 0
  }

  /** The value hash the facade computes for an old value; `null` gives `null`. */
  function ValueHash(v: Option<Value>, hasher: Hasher): (h: Option<Hash>)
    ensures v.None? <==> h.None?
    ensures h.Some? ==> h.value.Digest?
  {
    match v
    case None => None
    case Some(x) => Some(Digest(hasher(x)))
  }

  /** True when every key other than `k` holds the same record in both stores. */
  ghost predicate SameElsewhere(s: Store, s': Store, k: Key)
  {
    forall j :: j != k ==> (j in s <==> j in s') && (j in s ==> s[j] == s'[j])
  }

  /** Unconditional write of `v` under `k` with a new version. */
  function Put(s: Store, k: Key, v: Value, hasher: Hasher): (s': Store)
    ensures Lookup(s', k) == Some(v)
    ensures CurrentHash(s', k) == Digest(hasher(v))
    ensures VersionOf(s', k) == VersionOf(s, k) + 1
  {
    s[k := Record(Some(v), Digest(hasher(v)), VersionOf(s, k) + 1)]
  }

  /** A write touches no other key and keeps the store well formed. */
  lemma PutFrame(s: Store, k: Key, v: Value, hasher: Hasher)
    ensures SameElsewhere(s, Put(s, k, v, hasher), k)
    ensures WellFormed(s, hasher) ==> WellFormed(Put(s, k, v, hasher), hasher)
  {
  }

  /**
   * Removal of `k`: a present value is replaced by a deletion record with a
   * new version and the answer is true; an absent value leaves the store as
   * it is and the answer is false.
   */
  function Remove(s: Store, k: Key): (r: (Store, bool))
    ensures r.1 <==> Lookup(s, k).Some?
    ensures Lookup(r.0, k) == None
    ensures r.1 ==> VersionOf(r.0, k) == VersionOf(s, k) + 1
    ensures !r.1 ==> r.0 == s
    ensures SameElsewhere(s, r.0, k)
    ensures forall h :: WellFormed(s, h) ==> WellFormed(r.0, h)
  {
    if Lookup(s, k).Some? then (s[k := Record(None, NullHash, VersionOf(s, k) + 1)], true)
    else (s, false)
  }

  /** Whether an expected hash accepts the current hash under the sentinel rules. */
  predicate Matches(expected: Option<Hash>, current: Hash)
  {
    match expected
    case None => current == NullHash
    case Some(AnyHash) => true
    case Some(NullHash) => current == NullHash
    case Some(Digest(d)) => current == Digest(d)
  }

  /**
   * The store's single-attempt compare-and-put: on a match it writes the
   * value; in every case it answers the hash the record had before.
   */
  function CompareAndPut(s: Store, k: Key, expected: Option<Hash>, v: Value, hasher: Hasher): (r: (Store, Option<Hash>))
    ensures r.1 == Some(CurrentHash(s, k))
    ensures Matches(expected, CurrentHash(s, k)) ==> r.0 == Put(s, k, v, hasher)
    ensures !Matches(expected, CurrentHash(s, k)) ==> r.0 == s
  {
    var current := CurrentHash(s, k);
    if Matches(expected, current) then (Put(s, k, v, hasher), Some(current)) else (s, Some(current))
  }

  // Result interpretation in the facade (CacheImpl.putIfAbsent / replace).

  /** `putIfAbsent`: true iff the answer is non-null and the NULL hash. */
  predicate PutIfAbsentAnswer(result: Option<Hash>)
  {
    result.Some? && result.value == NullHash
  }

  /** `replace(key, value)`: true iff the answer is non-null and not the NULL hash. */
  predicate ReplaceAnswer(result: Option<Hash>)
  {
    result.Some? && result.value != NullHash
  }

  /**
   * `replace(key, old, value)`: with a null or NULL old hash, true iff the
   * answer is null or NULL; otherwise true iff the answer equals the old hash.
   */
  predicate ReplaceValueAnswer(oldHash: Option<Hash>, result: Option<Hash>)
  {
    if oldHash.None? || oldHash.value == NullHash then result.None? || result.value == NullHash
    else Some(oldHash.value) == result
  }

  // What the answers mean for the store.

  /** `putIfAbsent` reports true exactly when the key was absent, and only then writes. */
  lemma PutIfAbsentMeaning(s: Store, k: Key, v: Value, hasher: Hasher)
    ensures var r := CompareAndPut(s, k, Some(NullHash), v, hasher);
      && (PutIfAbsentAnswer(r.1) <==> Lookup(s, k).None?)
      && (PutIfAbsentAnswer(r.1) ==> r.0 == Put(s, k, v, hasher))
      && (!PutIfAbsentAnswer(r.1) ==> r.0 == s)
    requires WellFormed(s, hasher)
  {
    if k in s {
      assert WellFormedRecord(s[k], hasher);
    }
  }

  /** A second `putIfAbsent` of the same key fails, whatever the first one did. */
  lemma PutIfAbsentOnce(s: Store, k: Key, v: Value, w: Value, hasher: Hasher)
    requires WellFormed(s, hasher)
    ensures var s1 := CompareAndPut(s, k, Some(NullHash), v, hasher).0;
      !PutIfAbsentAnswer(CompareAndPut(s1, k, Some(NullHash), w, hasher).1)
  {
    var s1 := CompareAndPut(s, k, Some(NullHash), v, hasher).0;
    PutIfAbsentMeaning(s, k, v, hasher);
    if !PutIfAbsentAnswer(CompareAndPut(s, k, Some(NullHash), v, hasher).1) {
      assert Lookup(s, k).Some?;
    }
    assert Lookup(s1, k).Some?;
    PutIfAbsentMeaning(s1, k, w, hasher);
  }

  /**
   * `replace(key, value)` with the ANY hash always writes (ANY matches every
   * record) and reports true exactly when the key held a value before.
   */
  lemma ReplaceMeaning(s: Store, k: Key, v: Value, hasher: Hasher)
    requires WellFormed(s, hasher)
    ensures var r := CompareAndPut(s, k, Some(AnyHash), v, hasher);
      && (ReplaceAnswer(r.1) <==> Lookup(s, k).Some?)
      && r.0 == Put(s, k, v, hasher)
  {
    if k in s {
      assert WellFormedRecord(s[k], hasher);
    }
  }

  /**
   * `replace(key, old, value)` reports a change exactly when the store wrote
   * the new value: the old value's hash matched the current one (a null old
   * value matches only an absent key).
   */
  lemma ReplaceValueMeaning(s: Store, k: Key, oldValue: Option<Value>, v: Value, hasher: Hasher)
    requires WellFormed(s, hasher)
    ensures var r := CompareAndPut(s, k, ValueHash(oldValue, hasher), v, hasher);
      && (ReplaceValueAnswer(ValueHash(oldValue, hasher), r.1) <==> Matches(ValueHash(oldValue, hasher), CurrentHash(s, k)))
      && (ReplaceValueAnswer(ValueHash(oldValue, hasher), r.1) ==> r.0 == Put(s, k, v, hasher))
      && (!ReplaceValueAnswer(ValueHash(oldValue, hasher), r.1) ==> r.0 == s)
  {
  }

  /** For a present key, the change is reported iff the stored value hashes like the old value. */
  lemma ReplaceValueOfPresent(s: Store, k: Key, oldValue: Value, v: Value, hasher: Hasher)
    requires WellFormed(s, hasher)
    requires Lookup(s, k).Some?
    ensures var r := CompareAndPut(s, k, ValueHash(Some(oldValue), hasher), v, hasher);
      ReplaceValueAnswer(ValueHash(Some(oldValue), hasher), r.1) <==> hasher(Lookup(s, k).value) == hasher(oldValue)
  {
    assert WellFormedRecord(s[k], hasher);
  }

  /** Versions never decrease under any store operation, and a write strictly increases them. */
  lemma VersionsMonotone(s: Store, k: Key, j: Key, expected: Option<Hash>, v: Value, hasher: Hasher)
    ensures VersionOf(Put(s, k, v, hasher), j) >= VersionOf(s, j)
    ensures VersionOf(Remove(s, k).0, j) >= VersionOf(s, j)
    ensures VersionOf(CompareAndPut(s, k, expected, v, hasher).0, j) >= VersionOf(s, j)
    ensures CompareAndPut(s, k, expected, v, hasher).0 != s ==>
      VersionOf(CompareAndPut(s, k, expected, v, hasher).0, k) > VersionOf(s, k)
  {
  }
}
