/** The TTL cache of `cache/memcachettl/memCacheTTL.go`.

    `CacheState` is the cache's memory as a value: the item map, the index entries
    held by the expiry heap, the sequence counter and the size limit.  Every
    critical section is a function on it, and the methods of `Cache`, which work on
    the heap's slice, are proved to compute exactly those functions.  Each
    reading of the clock is a parameter. */
module TtlCache {
  import opened Prelude
  import opened ExpireHeaps

  datatype CacheItem<V> = CacheItem(value: V, expiration: Time, stamp: nat)

  datatype CacheState<V> = CacheState(
    items: map<string, CacheItem<V>>,
    index: set<ExpireItem>,
    nextSeq: nat,
    maxEntries: int)

  /** The index entry that stands for the item stored under `k`. */
  function EntryOf<V>(k: string, item: CacheItem<V>): ExpireItem {
    ExpireItem(k, item.expiration, item.stamp)
  }

  /** Every item has its own index entry, and no two entries carry the same number.
      Entries of overwritten or deleted items may still be there. */
  ghost predicate Indexed<V>(s: CacheState<V>) {
    && (forall k :: k in s.items ==> EntryOf(k, s.items[k]) in s.index)
    && (forall e :: e in s.index ==> e.stamp <= s.nextSeq)
    && (forall e, f :: e in s.index && f in s.index && e.stamp == f.stamp ==> e == f)
  }

  function Unexpired<V>(items: map<string, CacheItem<V>>, now: Time): map<string, CacheItem<V>> {
    map k | k in items && items[k].expiration > now :: items[k]
  }

  /** What `popExpiredLocked` leaves behind. */
  function Purge<V>(s: CacheState<V>, now: Time): CacheState<V> {
    s.(items := Unexpired(s.items, now), index := set e | e in s.index && e.expiry > now)
  }

  function Store<V>(s: CacheState<V>, key: string, value: V, expiry: Time): CacheState<V> {
    var item := CacheItem(value, expiry, s.nextSeq + 1);
    s.(items := s.items[key := item], index := s.index + {EntryOf(key, item)}, nextSeq := s.nextSeq + 1)
  }

  /** `Set`: `t1` is the clock at the limit check, `t2` the clock that starts the TTL.
      The second component tells whether the entry was stored. */
  function SetStep<V>(s: CacheState<V>, key: string, value: V, ttl: int, t1: Time, t2: Time): (CacheState<V>, bool) {
    if s.maxEntries > 0 && key !in s.items && |s.items| >= s.maxEntries then
      var p := Purge(s, t1);
      if |p.items| >= s.maxEntries then (p, false) else (Store(p, key, value, t2 + ttl), true)
    else
      (Store(s, key, value, t2 + ttl), true)
  }

  /** Outcome of `Get`'s first critical section, taken under the read lock. */
  datatype Lookup<V> = Missing | Hit(value: V) | Stale

  function GetFirst<V>(s: CacheState<V>, key: string, now: Time): Lookup<V> {
    if key !in s.items then Missing
    else if now > s.items[key].expiration then Stale
    else Hit(s.items[key].value)
  }

  /** `Get`'s second critical section, entered only when the first one found a stale item. */
  function GetSecond<V>(s: CacheState<V>, key: string, now: Time): (CacheState<V>, Option<V>) {
    if key !in s.items then (s, None)
    else if now > s.items[key].expiration then (s.(items := s.items - {key}), None)
    else (s, Some(s.items[key].value))
  }

  function DeleteStep<V>(s: CacheState<V>, key: string): CacheState<V> {
    s.(items := s.items - {key})
  }

  /** One round of the popping loop: `it` leaves the index, and the item it stands for, if any, goes too. */
  function DropEntry<V>(c: CacheState<V>, it: ExpireItem): CacheState<V> {
    var rest := c.(index := c.index - {it});
    if it.key in c.items && EntryOf(it.key, c.items[it.key]) == it then
      rest.(items := c.items - {it.key})
    else
      rest
  }

  /** `c` is `s` after some rounds that only removed entries due at `now`. */
  ghost predicate PartlyPurged<V>(s: CacheState<V>, c: CacheState<V>, now: Time) {
    && Indexed(c) && c.nextSeq == s.nextSeq && c.maxEntries == s.maxEntries
    && c.index <= s.index
    && (forall e :: e in s.index && e !in c.index ==> e.expiry <= now)
    && (forall k :: k in c.items ==> k in s.items && c.items[k] == s.items[k])
    && (forall k :: k in s.items && k !in c.items ==> s.items[k].expiration <= now)
  }

  /** A new item gets an index entry that no earlier write can have used. */
  lemma StoreIndexed<V>(s: CacheState<V>, key: string, value: V, expiry: Time)
    requires Indexed(s)
    ensures Indexed(Store(s, key, value, expiry))
    ensures ExpireItem(key, expiry, s.nextSeq + 1) !in s.index
  {
  }

  lemma PurgeRound<V>(s: CacheState<V>, c: CacheState<V>, it: ExpireItem, now: Time)
    requires PartlyPurged(s, c, now) && it in c.index && it.expiry <= now
    ensures PartlyPurged(s, DropEntry(c, it), now)
  {
  }

  /** Once no due entry is left in the index, exactly the due items are gone. */
  lemma PurgeEnds<V>(s: CacheState<V>, c: CacheState<V>, now: Time)
    requires PartlyPurged(s, c, now)
    requires forall e :: e in c.index ==> now < e.expiry
    ensures c == Purge(s, now)
  {
    forall k | k in c.items ensures c.items[k].expiration > now {
      assert EntryOf(k, c.items[k]) in c.index;
    }
    assert c.items == Unexpired(s.items, now);
    assert c.index == set e | e in s.index && e.expiry > now;
  }

  class Cache<V> {
    var items: map<string, CacheItem<V>>
    const expiryHeap: ExpireHeap
    var nextSeq: nat
    var maxEntries: int

    ghost function State(): CacheState<V>
      reads this, expiryHeap
    {
      CacheState(items, Entries(multiset(expiryHeap.h)), nextSeq, maxEntries)
    }

    ghost predicate Valid()
      reads this, expiryHeap
    {
      && HeapOrdered(expiryHeap.h)
      && Once(multiset(expiryHeap.h))
      && Indexed(State())
    }

    constructor ()
      ensures Valid() && fresh(expiryHeap)
      ensures State() == CacheState(map[], {}, 0, 0)
    {
      items := map[];
      expiryHeap := new ExpireHeap();
      nextSeq := 0;
      maxEntries := 0;
    }

    /** Pops index entries up to and including `now`, deleting the items they still stand for. */
    method PopExpiredLocked(now: Time)
      requires Valid()
      modifies this, expiryHeap
      ensures Valid() && State() == Purge(old(State()), now)
    {
      ghost var s := State();
      while |expiryHeap.h| > 0 && expiryHeap.h[0].expiry <= now
        invariant HeapOrdered(expiryHeap.h)
        invariant Once(multiset(expiryHeap.h))
        invariant PartlyPurged(s, State(), now)
        decreases |expiryHeap.h|
      {
        ghost var c := State();
        var it := expiryHeap.Pop();
        OnceWithout(multiset(expiryHeap.h), it);
        PurgeRound(s, c, it, now);
        if it.key in items {
          var item := items[it.key];
          if item.stamp == it.stamp && item.expiration == it.expiry {
            items := items - {it.key};
          }
        }
        assert State() == DropEntry(c, it);
      }
      RootBoundsAll(expiryHeap.h, now);
      PurgeEnds(s, State(), now);
    }

    /** The storing half of `Set`. */
    method StoreLocked(key: string, value: V, expiry: Time)
      requires Valid()
      modifies this, expiryHeap
      ensures Valid() && State() == Store(old(State()), key, value, expiry)
    {
      StoreIndexed(State(), key, value, expiry);
      nextSeq := nextSeq + 1;
      items := items[key := CacheItem(value, expiry, nextSeq)];
      OnceWith(multiset(expiryHeap.h), ExpireItem(key, expiry, nextSeq));
      expiryHeap.Push(ExpireItem(key, expiry, nextSeq));
    }

    method Set(key: string, value: V, ttl: int, t1: Time, t2: Time) returns (stored: bool)
      requires Valid()
      modifies this, expiryHeap
      ensures Valid()
      ensures (State(), stored) == SetStep(old(State()), key, value, ttl, t1, t2)
    {
      if maxEntries > 0 {
        if key !in items && |items| >= maxEntries {
          PopExpiredLocked(t1);
          if |items| >= maxEntries {
            return false;
          }
        }
      }
      StoreLocked(key, value, t2 + ttl);
      return true;
    }

    method SetMaxEntries(n: int)
      requires Valid()
      modifies this`maxEntries
      ensures Valid() && State() == old(State()).(maxEntries := n)
    {
      maxEntries := n;
    }

    method GetUnderReadLock(key: string, now: Time) returns (r: Lookup<V>)
      requires Valid()
      ensures r == GetFirst(State(), key, now)
    {
      if key !in items {
        return Missing;
      }
      var item := items[key];
      var expired := now > item.expiration;
      return if expired then Stale else Hit(item.value);
    }

    method GetUnderWriteLock(key: string, now: Time) returns (r: Option<V>)
      requires Valid()
      modifies this`items
      ensures Valid() && (State(), r) == GetSecond(old(State()), key, now)
    {
      r := None;
      if key in items {
        if now > items[key].expiration {
          items := items - {key};
        } else {
          r := Some(items[key].value);
        }
      }
    }

    method Delete(key: string)
      requires Valid()
      modifies this`items
      ensures Valid() && State() == DeleteStep(old(State()), key)
    {
      items := items - {key};
    }

    method CheckTTL(now: Time) returns (prevSize: nat, newSize: nat)
      requires Valid()
      modifies this, expiryHeap
      ensures Valid() && State() == Purge(old(State()), now)
      ensures prevSize == |old(items)| && newSize == |items|
    {
      prevSize := |items|;
      PopExpiredLocked(now);
      newSize := |items|;
    }
  }
}
