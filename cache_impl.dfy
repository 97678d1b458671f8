/**
 * The distributed cache facade `CacheImpl`: a state machine over the
 * per-key store, five operation counters, three listener registries and a
 * log of the listener calls it makes.
 */
module DistCache {
  import opened Wrappers
  import opened CacheStore
  import opened CacheListeners

  /** The store manager the facade is bound to, with its default cache engine. */
  datatype Manager = Manager(id: nat, engine: nat)

  /** The ambient distributed-cache system; its manager may be missing. */
  datatype CacheSystem = CacheSystem(manager: Option<Manager>)

  datatype CacheError =
    | NotInResinEnvironment     // no distributed-cache system is current
    | ManagerNotAvailable       // the system has no manager
    | ManagerAlreadySet         // setManager on a cache that has one

  /** The counters the admin facet reports. */
  datatype Statistics = Statistics(gets: nat, hits: nat, misses: nat, puts: nat, removals: nat)

  /** The values the facade reads for `keys`, one `get` per key, keeping only non-null values. */
  function FoundValues(s: Store, keys: seq<Key>): map<Key, Value>
  {
    if keys == [] then map[]
    else
      var m := FoundValues(s, keys[..|keys| - 1]);
      var k := keys[|keys| - 1];
      match Lookup(s, k)
      case Some(v) => m[k := v]
      case None => m
  }

  /** The map holds exactly the requested keys that have a value, each mapped to it. */
  lemma {:induction false} FoundValuesMeaning(s: Store, keys: seq<Key>)
    ensures forall k :: k in FoundValues(s, keys) <==> k in keys && Lookup(s, k).Some?
    ensures forall k :: k in FoundValues(s, keys) ==> Lookup(s, k) == Some(FoundValues(s, keys)[k])
    decreases |keys|
  {
    if keys != [] {
      var front := keys[..|keys| - 1];
      FoundValuesMeaning(s, front);
      assert keys == front + [keys[|keys| - 1]];
    }
  }

  /** How many of `keys` hold a value. */
  function HitCount(s: Store, keys: seq<Key>): (n: nat)
    ensures n <= |keys|
  {
    if keys == [] then 0
    else HitCount(s, keys[..|keys| - 1]) + (if Lookup(s, keys[|keys| - 1]).Some? then 1 else 0)
  }

  /** The read events of one `get` per key, in key order. */
  function ReadDeliveries(regs: seq<Registration>, s: Store, keys: seq<Key>): seq<Delivery>
  {
    if keys == [] then []
    else
      var k := keys[|keys| - 1];
      ReadDeliveries(regs, s, keys[..|keys| - 1]) + Dispatch(regs, ReadEvent, Event(k, Lookup(s, k)))
  }

  /** One more key of `getAll`: its value (if any), its hit and its read event are added at the end. */
  lemma GetAllStep(s: Store, regs: seq<Registration>, keys: seq<Key>, i: nat)
    requires i < |keys|
    ensures FoundValues(s, keys[..i + 1]) ==
      match Lookup(s, keys[i])
      case Some(v) => FoundValues(s, keys[..i])[keys[i] := v]
      case None => FoundValues(s, keys[..i])
    ensures HitCount(s, keys[..i + 1]) == HitCount(s, keys[..i]) + (if Lookup(s, keys[i]).Some? then 1 else 0)
    ensures ReadDeliveries(regs, s, keys[..i + 1]) ==
      ReadDeliveries(regs, s, keys[..i]) + Dispatch(regs, ReadEvent, Event(keys[i], Lookup(s, keys[i])))
  {
    assert keys[..i + 1][..i] == keys[..i];
  }

  /** Appending to the delivery log in two steps is appending the two parts at once. */
  lemma LogAppend(log: seq<Delivery>, a: seq<Delivery>, b: seq<Delivery>)
    ensures (log + a) + b == log + (a + b)
  {
  }

  /** The store after putting each entry in order. */
  function PutAllStore(s: Store, entries: seq<(Key, Value)>, hasher: Hasher): Store
  {
    if entries == [] then s
    else
      var e := entries[|entries| - 1];
      Put(PutAllStore(s, entries[..|entries| - 1], hasher), e.0, e.1, hasher)
  }

  /** The updated events of putting each entry in order. */
  function UpdateDeliveries(regs: seq<Registration>, entries: seq<(Key, Value)>): seq<Delivery>
  {
    if entries == [] then []
    else
      var e := entries[|entries| - 1];
      UpdateDeliveries(regs, entries[..|entries| - 1]) + Dispatch(regs, UpdatedEvent, Event(e.0, Some(e.1)))
  }

  /** The value of the last entry for `k`, if any. */
  function LastEntryFor(entries: seq<(Key, Value)>, k: Key): Option<Value>
  {
    if entries == [] then None
    else if entries[|entries| - 1].0 == k then Some(entries[|entries| - 1].1)
    else LastEntryFor(entries[..|entries| - 1], k)
  }

  /** `LastEntryFor` finds the value of the entry for `k` that no later entry for `k` follows. */
  lemma {:induction false} LastEntryForMeaning(entries: seq<(Key, Value)>, k: Key)
    ensures LastEntryFor(entries, k).None? <==> forall i :: 0 <= i < |entries| ==> entries[i].0 != k
    ensures LastEntryFor(entries, k).Some? ==>
      exists i :: 0 <= i < |entries| && entries[i] == (k, LastEntryFor(entries, k).value) &&
                  (forall j :: i < j < |entries| ==> entries[j].0 != k)
    decreases |entries|
  {
    if entries != [] && entries[|entries| - 1].0 != k {
      var front := entries[..|entries| - 1];
      LastEntryForMeaning(front, k);
      assert forall i :: 0 <= i < |front| ==> front[i] == entries[i];
      if LastEntryFor(front, k).Some? {
        var i :| 0 <= i < |front| && front[i] == (k, LastEntryFor(front, k).value) &&
                 (forall j :: i < j < |front| ==> front[j].0 != k);
        assert entries[i] == (k, LastEntryFor(entries, k).value);
      }
    }
  }

  /** After `putAll`, a key holds the value of its last entry; keys without an entry are untouched. */
  lemma {:induction false} PutAllLookup(s: Store, entries: seq<(Key, Value)>, hasher: Hasher, k: Key)
    ensures Lookup(PutAllStore(s, entries, hasher), k) ==
      match LastEntryFor(entries, k)
      case Some(v) => Some(v)
      case None => Lookup(s, k)
    decreases |entries|
  {
    if entries != [] {
      PutAllLookup(s, entries[..|entries| - 1], hasher, k);
    }
  }

  /** One more entry of `putAll`: one more put and one more updated event. */
  lemma PutAllStep(s: Store, regs: seq<Registration>, entries: seq<(Key, Value)>, i: nat, hasher: Hasher)
    requires i < |entries|
    ensures PutAllStore(s, entries[..i + 1], hasher) == Put(PutAllStore(s, entries[..i], hasher), entries[i].0, entries[i].1, hasher)
    ensures UpdateDeliveries(regs, entries[..i + 1]) ==
      UpdateDeliveries(regs, entries[..i]) + Dispatch(regs, UpdatedEvent, Event(entries[i].0, Some(entries[i].1)))
  {
    assert entries[..i + 1][..i] == entries[..i];
  }

  /** `putAll` keeps the store well formed. */
  lemma {:induction false} PutAllWellFormed(s: Store, entries: seq<(Key, Value)>, hasher: Hasher)
    requires WellFormed(s, hasher)
    ensures WellFormed(PutAllStore(s, entries, hasher), hasher)
    decreases |entries|
  {
    if entries != [] {
      PutAllWellFormed(s, entries[..|entries| - 1], hasher);
    }
  }

  class Cache {
    var store: Store

    var gets: nat
    var hits: nat
    var misses: nat
    var puts: nat
    var removals: nat

    var readListeners: seq<Registration>
    var updatedListeners: seq<Registration>
    var removedListeners: seq<Registration>

    /** Every listener call the facade has made, in order. */
    var deliveries: seq<Delivery>

    var isInit: bool
    var isClosed: bool
    var manager: Option<Manager>
    var engine: Option<nat>
    /** Whether the manager's `initCache` and the admin registration have run. */
    var isRegistered: bool
    var hasLoadQueue: bool

    const hasher: Hasher
    const loader: Option<Key -> Option<Value>>

    ghost predicate Valid()
      reads this
    {
      && WellFormed(store, hasher)
      && gets == hits + misses
      && (isRegistered ==> isInit && manager.Some? && engine.Some?)
    }

    constructor (hasher: Hasher, loader: Option<Key -> Option<Value>>, engine: Option<nat>)
      ensures Valid()
      ensures this.hasher == hasher && this.loader == loader && this.engine == engine
      ensures store == map[] && gets == 0 && puts == 0 && removals == 0
      ensures readListeners == [] && updatedListeners == [] && removedListeners == [] && deliveries == []
      ensures !isInit && !isClosed && manager == None && !isRegistered && !hasLoadQueue
    {
      this.hasher := hasher;
      this.loader := loader;
      this.engine := engine;
      store := map[];
      gets, hits, misses, puts, removals := 0, 0, 0, 0, 0;
      readListeners, updatedListeners, removedListeners := [], [], [];
      deliveries := [];
      isInit, isClosed, manager, isRegistered, hasLoadQueue := false, false, None, false, false;
    }

    /** The admin facet's counters; every get is either a hit or a miss. */
    function GetStatistics(): (st: Statistics)
      reads this
      requires Valid()
      ensures st.gets == st.hits + st.misses
      ensures st == Statistics(gets, hits, misses, puts, removals)
    {
      Statistics(gets, hits, misses, puts, removals)
    }

    /**
     * `init`: runs once.  The init flag is set before the manager lookup, so
     * a lookup that fails still leaves the cache marked as initialised.
     */
    method Init(current: Option<CacheSystem>) returns (o: Outcome<CacheError>)
      requires Valid()
      modifies this`isInit, this`manager, this`engine, this`isRegistered
      ensures Valid()
      ensures old(isInit) ==> o == Pass && manager == old(manager) && engine == old(engine) && isRegistered == old(isRegistered)
      ensures !old(isInit) ==> isInit
      ensures !old(isInit) && old(manager).Some? ==>
        o == Pass && manager == old(manager) && isRegistered
      ensures !old(isInit) && old(manager).None? ==>
        match current
        case None => o == Fail(NotInResinEnvironment) && manager == None && !isRegistered
        case Some(sys) =>
          if sys.manager.None? then o == Fail(ManagerNotAvailable) && manager == None && !isRegistered
          else o == Pass && manager == sys.manager && isRegistered
      ensures o == Pass && !old(isInit) ==>
        engine == (if old(engine).Some? then old(engine) else Some(manager.value.engine))
      ensures o.Fail? ==> engine == old(engine)
    {
      if isInit {
        return Pass;
      }
      isInit := true;
      // initServer
      if manager.None? {
        if current.None? {
          return Fail(NotInResinEnvironment);
        }
        manager := current.value.manager;
        if manager.None? {
          return Fail(ManagerNotAvailable);
        }
      }
      if engine.None? {
        engine := Some(manager.value.engine);
      }
      // the manager's initCache and the admin registration
      isRegistered := true;
      return Pass;
    }

    /** `setManager`: allowed only while no manager is bound. */
    method SetManager(m: Manager) returns (o: Outcome<CacheError>)
      requires Valid()
      modifies this`manager
      ensures Valid()
      ensures o == Pass <==> old(manager).None?
      ensures manager == if o == Pass then Some(m) else old(manager)
    {
      if manager.Some? {
        return Fail(ManagerAlreadySet);
      }
      manager := Some(m);
      return Pass;
    }

    /** Calls each registration of `regs` whose filter accepts `ev`, in order. */
    method Fire(regs: seq<Registration>, kind: EventKind, ev: Event)
      modifies this`deliveries
      ensures deliveries == old(deliveries) + Dispatch(regs, kind, ev)
    {
      for i := 0 to |regs|
        invariant deliveries == old(deliveries) + Dispatch(regs[..i], kind, ev)
      {
        assert regs[..i + 1][..i] == regs[..i];
        LogAppend(old(deliveries), Dispatch(regs[..i], kind, ev), DeliverTo(regs[i], kind, ev));
        if regs[i].filter(ev) {
          deliveries := deliveries + [Delivery(regs[i].listener, kind, ev)];
        }
      }
      assert regs[..|regs|] == regs;
    }

    /** `entryRead`: the read event, with the value read (possibly null). */
    method EntryRead(k: Key, v: Option<Value>)
      modifies this`deliveries
      ensures deliveries == old(deliveries) + Dispatch(readListeners, ReadEvent, Event(k, v))
    {
      Fire(readListeners, ReadEvent, Event(k, v));
    }

    /** `entryUpdate`: the updated event, with the new value. */
    method EntryUpdate(k: Key, v: Value)
      modifies this`deliveries
      ensures deliveries == old(deliveries) + Dispatch(updatedListeners, UpdatedEvent, Event(k, Some(v)))
    {
      Fire(updatedListeners, UpdatedEvent, Event(k, Some(v)));
    }

    /** `entryRemoved`: the removed event, with a null value. */
    method EntryRemoved(k: Key)
      modifies this`deliveries
      ensures deliveries == old(deliveries) + Dispatch(removedListeners, RemovedEvent, Event(k, None))
    {
      Fire(removedListeners, RemovedEvent, Event(k, None));
    }

    /** `get`: one more get, and one more hit or miss; the read event goes out. */
    method Get(k: Key) returns (v: Option<Value>)
      requires Valid()
      modifies this`gets, this`hits, this`misses, this`deliveries
      ensures Valid()
      ensures v == Lookup(store, k)
      ensures gets == old(gets) + 1
      ensures hits == old(hits) + (if v.Some? then 1 else 0)
      ensures misses == old(misses) + (if v.Some? then 0 else 1)
      ensures deliveries == old(deliveries) + Dispatch(readListeners, ReadEvent, Event(k, v))
    {
      gets := gets + 1;
      if Lookup(store, k).Some? {
        hits := hits + 1;
      } else {
        misses := misses + 1;
      }
      v := Lookup(store, k);
      EntryRead(k, v);
    }

    /** `put`: writes the value, counts one put and sends the updated event. */
    method Put(k: Key, v: Value)
      requires Valid()
      modifies this`store, this`puts, this`deliveries
      ensures Valid()
      ensures store == CacheStore.Put(old(store), k, v, hasher)
      ensures puts == old(puts) + 1
      ensures deliveries == old(deliveries) + Dispatch(updatedListeners, UpdatedEvent, Event(k, Some(v)))
    {
      PutFrame(store, k, v, hasher);
      store := CacheStore.Put(store, k, v, hasher);
      puts := puts + 1;
      EntryUpdate(k, v);
    }

    /** `putIfAbsent`: conditional put with the NULL hash; no counter, no event. */
    method PutIfAbsent(k: Key, v: Value) returns (ok: bool)
      requires Valid()
      modifies this`store
      ensures Valid()
      ensures ok <==> Lookup(old(store), k).None?
      ensures store == if ok then CacheStore.Put(old(store), k, v, hasher) else old(store)
    {
      var r := CompareAndPut(store, k, Some(NullHash), v, hasher);
      PutIfAbsentMeaning(store, k, v, hasher);
      store := r.0;
      ok := PutIfAbsentAnswer(r.1);
    }

    /**
     * `replace(key, value)`: conditional put with the ANY hash.  It reports a
     * change iff the key held a value, and only then sends the updated event.
     */
    method Replace(k: Key, v: Value) returns (ok: bool)
      requires Valid()
      modifies this`store, this`deliveries
      ensures Valid()
      ensures ok <==> Lookup(old(store), k).Some?
      ensures store == CacheStore.Put(old(store), k, v, hasher)
      ensures deliveries == old(deliveries) +
        (if ok then Dispatch(updatedListeners, UpdatedEvent, Event(k, Some(v))) else [])
    {
      var r := CompareAndPut(store, k, Some(AnyHash), v, hasher);
      ReplaceMeaning(store, k, v, hasher);
      store := r.0;
      ok := ReplaceAnswer(r.1);
      if ok {
        EntryUpdate(k, v);
      }
    }

    /**
     * `replace(key, oldValue, value)`: conditional put with the old value's
     * hash; no counter, no event.
     */
    method ReplaceValue(k: Key, oldValue: Option<Value>, v: Value) returns (ok: bool)
      requires Valid()
      modifies this`store
      ensures Valid()
      ensures ok <==> Matches(ValueHash(oldValue, hasher), CurrentHash(old(store), k))
      ensures oldValue.None? ==> (ok <==> Lookup(old(store), k).None?)
      ensures store == if ok then CacheStore.Put(old(store), k, v, hasher) else old(store)
    {
      var oldHash := ValueHash(oldValue, hasher);
      var r := CompareAndPut(store, k, oldHash, v, hasher);
      ReplaceValueMeaning(store, k, oldValue, v, hasher);
      if k in store {
        assert WellFormedRecord(store[k], hasher);
      }
      store := r.0;
      ok := ReplaceValueAnswer(oldHash, r.1);
    }

    /** `remove(key)`: the store's answer; only a real removal is counted and announced. */
    method Remove(k: Key) returns (removed: bool)
      requires Valid()
      modifies this`store, this`removals, this`deliveries
      ensures Valid()
      ensures removed <==> Lookup(old(store), k).Some?
      ensures store == CacheStore.Remove(old(store), k).0
      ensures removals == old(removals) + (if removed then 1 else 0)
      ensures deliveries == old(deliveries) +
        (if removed then Dispatch(removedListeners, RemovedEvent, Event(k, None)) else [])
    {
      var r := CacheStore.Remove(store, k);
      store := r.0;
      removed := r.1;
      if removed {
        EntryRemoved(k);
        removals := removals + 1;
      }
    }

    /** `remove(key, oldValue)`: removes unconditionally and always answers true. */
    method RemoveValue(k: Key, oldValue: Value) returns (ok: bool)
      requires Valid()
      modifies this`store
      ensures Valid()
      ensures ok
      ensures store == CacheStore.Remove(old(store), k).0
    {
      store := CacheStore.Remove(store, k).0;
      ok := true;
    }

    /** `compareAndRemove`: removes iff the current version is the given one. */
    method CompareAndRemove(k: Key, version: nat) returns (ok: bool)
      requires Valid()
      modifies this`store, this`removals, this`deliveries
      ensures Valid()
      ensures ok <==> VersionOf(old(store), k) == version
      ensures ok ==> store == CacheStore.Remove(old(store), k).0
      ensures ok ==> removals == old(removals) + (if Lookup(old(store), k).Some? then 1 else 0)
      ensures ok ==>
        deliveries == old(deliveries) +
          (if Lookup(old(store), k).Some? then Dispatch(removedListeners, RemovedEvent, Event(k, None)) else [])
      ensures !ok ==> store == old(store) && removals == old(removals) && deliveries == old(deliveries)
    {
      if VersionOf(store, k) == version {
        var _ := Remove(k);
        return true;
      }
      return false;
    }

    /** `compareAndPut(key, version, value)`: ignores the version, puts and answers true. */
    method CompareAndPutVersion(k: Key, version: nat, v: Value) returns (ok: bool)
      requires Valid()
      modifies this`store, this`puts, this`deliveries
      ensures Valid()
      ensures ok
      ensures store == CacheStore.Put(old(store), k, v, hasher)
      ensures puts == old(puts) + 1
      ensures deliveries == old(deliveries) + Dispatch(updatedListeners, UpdatedEvent, Event(k, Some(v)))
    {
      Put(k, v);
      return true;
    }

    /** `getAll`: one `get` per key, collecting the non-null values. */
    method GetAll(keys: seq<Key>) returns (result: map<Key, Value>)
      requires Valid()
      modifies this`gets, this`hits, this`misses, this`deliveries
      ensures Valid()
      ensures result == FoundValues(store, keys)
      ensures forall k :: k in result <==> k in keys && Lookup(store, k).Some?
      ensures forall k :: k in result ==> Lookup(store, k) == Some(result[k])
      ensures gets == old(gets) + |keys|
      ensures hits == old(hits) + HitCount(store, keys)
      ensures misses == old(misses) + (|keys| - HitCount(store, keys))
      ensures deliveries == old(deliveries) + ReadDeliveries(readListeners, store, keys)
    {
      result := map[];
      ghost var g0, h0, d0 := gets, hits, deliveries;
      for i := 0 to |keys|
        invariant Valid()
        invariant result == FoundValues(store, keys[..i])
        invariant gets == g0 + i
        invariant hits == h0 + HitCount(store, keys[..i])
        invariant deliveries == d0 + ReadDeliveries(readListeners, store, keys[..i])
      {
        GetAllStep(store, readListeners, keys, i);
        LogAppend(d0, ReadDeliveries(readListeners, store, keys[..i]),
          Dispatch(readListeners, ReadEvent, Event(keys[i], Lookup(store, keys[i]))));
        var value := Get(keys[i]);
        if value.Some? {
          result := result[keys[i] := value.value];
        }
      }
      assert keys[..|keys|] == keys;
      FoundValuesMeaning(store, keys);
    }

    /** `putAll`: one `put` per entry, in order. */
    method PutAll(entries: seq<(Key, Value)>)
      requires Valid()
      modifies this`store, this`puts, this`deliveries
      ensures Valid()
      ensures store == PutAllStore(old(store), entries, hasher)
      ensures puts == old(puts) + |entries|
      ensures deliveries == old(deliveries) + UpdateDeliveries(updatedListeners, entries)
    {
      ghost var s0, p0, d0 := store, puts, deliveries;
      for i := 0 to |entries|
        invariant Valid()
        invariant store == PutAllStore(s0, entries[..i], hasher)
        invariant puts == p0 + i
        invariant deliveries == d0 + UpdateDeliveries(updatedListeners, entries[..i])
      {
        PutAllStep(s0, updatedListeners, entries, i, hasher);
        LogAppend(d0, UpdateDeliveries(updatedListeners, entries[..i]),
          Dispatch(updatedListeners, UpdatedEvent, Event(entries[i].0, Some(entries[i].1))));
        Put(entries[i].0, entries[i].1);
      }
      assert entries[..|entries|] == entries;
    }

    /**
     * `cacheLoader`: a hit is returned as it is; on a miss the loader (if any)
     * is asked, and a non-null loaded value is put into the cache.
     */
    method CacheLoader(k: Key) returns (v: Option<Value>)
      requires Valid()
      modifies this`store, this`gets, this`hits, this`misses, this`puts, this`deliveries
      ensures Valid()
      ensures gets == old(gets) + 1
      ensures Lookup(old(store), k).Some? ==>
        v == Lookup(old(store), k) && store == old(store) && puts == old(puts)
      ensures Lookup(old(store), k).None? ==>
        v == (if loader.Some? then loader.value(k) else None) &&
        store == (if v.Some? then CacheStore.Put(old(store), k, v.value, hasher) else old(store)) &&
        puts == old(puts) + (if v.Some? then 1 else 0)
      ensures v.Some? ==> Lookup(store, k) == v
      ensures hits == old(hits) + (if Lookup(old(store), k).Some? then 1 else 0)
      ensures misses == old(misses) + (if Lookup(old(store), k).Some? then 0 else 1)
      ensures deliveries == old(deliveries) + Dispatch(readListeners, ReadEvent, Event(k, Lookup(old(store), k))) +
        (if Lookup(old(store), k).None? && v.Some? then Dispatch(updatedListeners, UpdatedEvent, Event(k, v)) else [])
    {
      v := Get(k);
      if v.Some? {
        return v;
      }
      v := if loader.Some? then loader.value(k) else None;
      if v.Some? {
        Put(k, v.value);
      }
    }

    /** `registerCacheEntryListener`: one registration per implemented interface; always true. */
    method RegisterListener(l: Listener, f: Filter) returns (ok: bool)
      modifies this`readListeners, this`updatedListeners, this`removedListeners
      ensures ok
      ensures readListeners == old(readListeners) + (if l.isRead then [Registration(l, f)] else [])
      ensures updatedListeners == old(updatedListeners) + (if l.isUpdated then [Registration(l, f)] else [])
      ensures removedListeners == old(removedListeners) + (if l.isRemoved then [Registration(l, f)] else [])
    {
      if l.isRead {
        readListeners := readListeners + [Registration(l, f)];
      }
      if l.isUpdated {
        updatedListeners := updatedListeners + [Registration(l, f)];
      }
      if l.isRemoved {
        removedListeners := removedListeners + [Registration(l, f)];
      }
      return true;
    }

    /**
     * `unregisterCacheEntryListener`: removes the first registration of the
     * listener from each registry; true iff anything was removed.
     */
    method UnregisterListener(l: Listener) returns (removed: bool)
      modifies this`readListeners, this`updatedListeners, this`removedListeners
      ensures readListeners == RemoveFirst(old(readListeners), l)
      ensures updatedListeners == RemoveFirst(old(updatedListeners), l)
      ensures removedListeners == RemoveFirst(old(removedListeners), l)
      ensures removed <==>
        Registered(old(readListeners), l) || Registered(old(updatedListeners), l) || Registered(old(removedListeners), l)
    {
      removed := false;
      var found;
      readListeners, found := Unregister(readListeners, l);
      if found {
        removed := true;
      }
      updatedListeners, found := Unregister(updatedListeners, l);
      if found {
        removed := true;
      }
      removedListeners, found := Unregister(removedListeners, l);
      if found {
        removed := true;
      }
    }

    /** `close`: marks the cache closed. */
    method Close()
      modifies this`isClosed
      ensures isClosed
    {
      isClosed := true;
    }

    /** `load(key)`: creates the load queue on first use and hands back a pending future. */
    method Load(k: Key) returns (f: LoadFuture)
      modifies this`hasLoadQueue
      ensures hasLoadQueue
      ensures fresh(f) && f.Pending() && f.request == SingleKey(k) && f.cache == this
    {
      hasLoadQueue := true;
      f := new LoadFuture(this, SingleKey(k));
    }

    /** `loadAll(keys)`: as `load`, for a set of keys. */
    method LoadAll(keys: seq<Key>) returns (f: LoadFuture)
      modifies this`hasLoadQueue
      ensures hasLoadQueue
      ensures fresh(f) && f.Pending() && f.request == KeySet(keys) && f.cache == this
    {
      hasLoadQueue := true;
      f := new LoadFuture(this, KeySet(keys));
    }
  }

  /** What a load future was asked for. */
  datatype LoadRequest = SingleKey(key: Key) | KeySet(keys: seq<Key>)

  /** What a load future holds: nothing yet, one value (possibly null), or a map. */
  datatype LoadResult = NoResult | SingleResult(value: Option<Value>) | MapResult(values: map<Key, Value>)

  /**
   * `LoadFuture`: pending until the load worker processes it, then done with
   * the result of `get` or `getAll`.  Cancellation is never supported.
   */
  class LoadFuture {
    const request: LoadRequest
    var cache: Cache?
    var result: LoadResult
    var isDone: bool

    ghost predicate Pending()
      reads this
    {
      !isDone && cache != null && result == NoResult
    }

    /** A done future no longer refers to the cache; a pending one does. */
    ghost predicate Valid()
      reads this
    {
      isDone <==> cache == null
    }

    constructor (c: Cache, request: LoadRequest)
      ensures Valid() && Pending() && cache == c && this.request == request
    {
      this.request := request;
      cache := c;
      result := NoResult;
      isDone := false;
    }

    /** `process`: runs the synchronous read on `c` and marks the future done. */
    method Process(c: Cache)
      requires cache == c && c.Valid()
      modifies this`cache, this`result, this`isDone, c`gets, c`hits, c`misses, c`deliveries
      ensures c.Valid() && Valid() && isDone && cache == null
      ensures match request
        case SingleKey(k) => result == SingleResult(Lookup(c.store, k))
        case KeySet(keys) => result == MapResult(FoundValues(c.store, keys))
      ensures c.gets == old(c.gets) + (match request case SingleKey(_) => 1 case KeySet(keys) => |keys|)
      ensures match request
        case SingleKey(k) =>
          && c.hits == old(c.hits) + (if Lookup(c.store, k).Some? then 1 else 0)
          && c.misses == old(c.misses) + (if Lookup(c.store, k).Some? then 0 else 1)
          && c.deliveries == old(c.deliveries) + Dispatch(c.readListeners, ReadEvent, Event(k, Lookup(c.store, k)))
        case KeySet(keys) =>
          && c.hits == old(c.hits) + HitCount(c.store, keys)
          && c.misses == old(c.misses) + (|keys| - HitCount(c.store, keys))
          && c.deliveries == old(c.deliveries) + ReadDeliveries(c.readListeners, c.store, keys)
    {
      match request {
        case SingleKey(k) =>
          var v := c.Get(k);
          result := SingleResult(v);
        case KeySet(keys) =>
          var m := c.GetAll(keys);
          result := MapResult(m);
      }
      cache := null;
      isDone := true;
    }

    /** `cancel` is always refused. */
    method Cancel(mayInterrupt: bool) returns (cancelled: bool)
      ensures !cancelled
    {
      return false;
    }

    /** `isCancelled` is always false. */
    method IsCancelled() returns (cancelled: bool)
      ensures !cancelled
    {
      return false;
    }

    method IsDone() returns (done: bool)
      ensures done == isDone
    {
      return isDone;
    }

    /**
     * `get()` without the waiting: the result is available once the future is
     * done or its cache is closed; the result held at that point is returned.
     */
    method TryGet() returns (ready: bool, r: LoadResult)
      requires Valid()
      ensures ready <==> isDone || cache.isClosed
      ensures r == result
    {
      ready := isDone || cache.isClosed;
      r := result;
    }
  }

  /** A store entry as the store manager's entry iterator yields it. */
  datatype StoreEntry = StoreEntry(cacheHash: nat, key: Key, value: Option<Value>)

  /** The entries that belong to the cache with hash `cacheKey`, in store order. */
  function EntriesOf(entries: seq<StoreEntry>, cacheKey: nat): (r: seq<StoreEntry>)
    ensures |r| <= |entries|
    ensures forall e :: e in r ==> e in entries && e.cacheHash == cacheKey
  {
    if entries == [] then []
    else (if entries[0].cacheHash == cacheKey then [entries[0]] else []) + EntriesOf(entries[1..], cacheKey)
  }

  /** Every entry of the cache is yielded by the iterator. */
  lemma {:induction false} EntriesOfComplete(entries: seq<StoreEntry>, cacheKey: nat, e: StoreEntry)
    requires e in entries && e.cacheHash == cacheKey
    ensures e in EntriesOf(entries, cacheKey)
    decreases |entries|
  {
    if entries[0] != e {
      EntriesOfComplete(entries[1..], cacheKey, e);
    }
  }

  /**
   * `EntryIterator`: walks the store's entries and yields those whose cache
   * hash is this cache's key.
   */
  class EntryIterator {
    const entries: seq<StoreEntry>
    const cacheKey: nat
    var pos: nat
    var next: Option<StoreEntry>

    ghost predicate Valid()
      reads this
    {
      && pos <= |entries|
      && (next.None? ==> pos == |entries|)
      && (next.Some? ==> next.value.cacheHash == cacheKey)
    }

    /** The entries still to be yielded. */
    ghost function Remaining(): seq<StoreEntry>
      reads this
      requires pos <= |entries|
    {
      (if next.Some? then [next.value] else []) + EntriesOf(entries[pos..], cacheKey)
    }

    constructor (entries: seq<StoreEntry>, cacheKey: nat)
      ensures Valid()
      ensures Remaining() == EntriesOf(entries, cacheKey)
    {
      this.entries := entries;
      this.cacheKey := cacheKey;
      pos := 0;
      next := None;
      new;
      FindNext();
    }

    /** `findNext`: advances the store iterator to the next entry of this cache. */
    method FindNext()
      requires pos <= |entries| && next.None?
      modifies this`pos, this`next
      ensures Valid()
      ensures Remaining() == old(Remaining())
    {
      while pos < |entries|
        invariant pos <= |entries| && next.None?
        invariant Remaining() == old(Remaining())
      {
        var e := entries[pos];
        assert entries[pos..] == [e] + entries[pos + 1..];
        pos := pos + 1;
        if e.cacheHash == cacheKey {
          next := Some(e);
          return;
        }
      }
    }

    method HasNext() returns (b: bool)
      requires Valid()
      ensures b <==> Remaining() != []
    {
      assert next.None? ==> entries[pos..] == [];
      return next.Some?;
    }

    /** `next`: the pending entry (null when exhausted), then moves on. */
    method Next() returns (e: Option<StoreEntry>)
      requires Valid()
      modifies this`pos, this`next
      ensures Valid()
      ensures old(Remaining()) == [] ==> e == None && Remaining() == []
      ensures old(Remaining()) != [] ==> e == Some(old(Remaining())[0]) && Remaining() == old(Remaining())[1..]
    {
      assert next.None? ==> entries[pos..] == [];
      e := next;
      next := None;
      FindNext();
    }
  }
}
